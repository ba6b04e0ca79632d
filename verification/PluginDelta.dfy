/**
 The plugin-state delta a compaction stores, and its conflict-aware inverse.

 `Delta` says which edits separate two trees; `CollectDelta` and `BuildPluginDelta` are the code that
 lists them. `Inverted` and `Conflicts` say what undoing edits does; `InvertPluginDelta` is the loop.
 */
module PluginDelta {
  import opened Wrappers
  import opened Json
  import Ordering
  import Pointer

  type Path = seq<string>
  type Tree = map<string, Json>

  /** One change at one place; an absent side is the source's `*_exists: False`. */
  datatype Edit = Edit(path: Path, before: Option<Json>, after: Option<Json>)

  /** An edit as it is stored: its place is JSON Pointer text. */
  datatype Operation = Operation(pointer: string, before: Option<Json>, after: Option<Json>) {
    predicate Valid() { Pointer.Parse(pointer).Success? }

    function Read(): (e: Entry)
      requires Valid()
      ensures e.edit.path != []
    {
      Entry(pointer, Edit(Pointer.Parse(pointer).value, before, after))
    }
  }

  /** An operation whose pointer has been read. */
  datatype Entry = Entry(pointer: string, edit: Edit)

  predicate Incomparable(p: Path, q: Path) {
    !(p <= q) && !(q <= p)
  }

  ghost predicate Separate(es: seq<Edit>) {
    && (forall e | e in es :: e.path != [])
    && (forall i, j | 0 <= i < j < |es| :: Incomparable(es[i].path, es[j].path))
  }

  // ---- the difference of two trees -----------------------------------------

  function Under(k: string, es: seq<Edit>): seq<Edit> {
    seq(|es|, i requires 0 <= i < |es| => es[i].(path := [k] + es[i].path))
  }

  ghost function Delta(before: Json, after: Json): seq<Edit>
    decreases before, 1, 0
  {
    if before.Obj? && after.Obj? then
      Ordering.SortedIsSorted(before.fields.Keys + after.fields.Keys);
      DeltaKeys(before, after, Ordering.Sorted(before.fields.Keys + after.fields.Keys))
    else if PyEq(before, after) then []
    else [Edit([], Some(before), Some(after))]
  }

  ghost function DeltaKeys(before: Json, after: Json, keys: seq<string>): seq<Edit>
    requires before.Obj? && after.Obj?
    requires forall k | k in keys :: k in before.fields || k in after.fields
    decreases before, 0, |keys|
  {
    if keys == [] then []
    else
      var n := |keys| - 1;
      assert keys[n] in keys;
      DeltaKeys(before, after, keys[..n]) + DeltaKey(before, after, keys[n])
  }

  ghost function DeltaKey(before: Json, after: Json, k: string): seq<Edit>
    requires before.Obj? && after.Obj?
    requires k in before.fields || k in after.fields
    decreases before, 0, 0
  {
    if k !in before.fields then [Edit([k], None, Some(after.fields[k]))]
    else if k !in after.fields then [Edit([k], Some(before.fields[k]), None)]
    else Under(k, Delta(before.fields[k], after.fields[k]))
  }

  /** The edits as stored operations, seen from the root: `path` leads to the subtree compared. */
  function Rendered(path: Path, es: seq<Edit>): seq<Operation> {
    seq(|es|, i requires 0 <= i < |es| =>
      Operation(Pointer.Render(path + es[i].path), es[i].before, es[i].after))
  }

  lemma RenderedValid(path: Path, es: seq<Edit>)
    ensures forall o | o in Rendered(path, es) :: o.Valid()
  {
  }

  /** The shared list that the recursion appends to. */
  class OperationLog {
    var operations: seq<Operation>

    constructor ()
      ensures operations == []
    {
      operations := [];
    }
  }

  method CollectDelta(before: Json, after: Json, path: Path, log: OperationLog)
    modifies log
    ensures log.operations == old(log.operations) + Rendered(path, Delta(before, after))
    decreases before, 1
  {
    if before.Obj? && after.Obj? {
      ghost var start := log.operations;
      var keys := Ordering.SortSet(before.fields.Keys + after.fields.Keys);
      Ordering.SortedIsSorted(before.fields.Keys + after.fields.Keys);
      var i := 0;
      while i < |keys|
        invariant 0 <= i <= |keys|
        invariant Listed(before, after, path, keys[..i], start, log.operations)
      {
        var key := keys[i];
        assert key in keys;
        ghost var listed := log.operations;
        CollectKey(before, after, key, path, log);
        ListedNext(before, after, path, keys, i, start, listed, log.operations);
        i := i + 1;
      }
      assert keys[..i] == keys;
    } else if !PyEq(before, after) {
      log.operations := log.operations + [Operation(Pointer.Render(path), Some(before), Some(after))];
      assert path + [] == path;
    }
  }

  /** One key of the two dicts compared. */
  method CollectKey(before: Json, after: Json, key: string, path: Path, log: OperationLog)
    requires before.Obj? && after.Obj? && (key in before.fields || key in after.fields)
    modifies log
    ensures log.operations == old(log.operations) + Rendered(path, DeltaKey(before, after, key))
    decreases before, 0
  {
    var child := path + [key];
    if key !in before.fields {
      log.operations := log.operations + [Operation(Pointer.Render(child), None, Some(after.fields[key]))];
    } else if key !in after.fields {
      log.operations := log.operations + [Operation(Pointer.Render(child), Some(before.fields[key]), None)];
    } else {
      CollectDelta(before.fields[key], after.fields[key], child, log);
      RenderedUnder(path, key, Delta(before.fields[key], after.fields[key]));
    }
  }

  /** The log holds `start` and then the edits of the first keys. */
  ghost predicate Listed(before: Json, after: Json, path: Path, keys: seq<string>,
                         start: seq<Operation>, operations: seq<Operation>)
    requires before.Obj? && after.Obj?
  {
    && (forall k | k in keys :: k in before.fields || k in after.fields)
    && operations == start + Rendered(path, DeltaKeys(before, after, keys))
  }

  lemma DeltaKeysSnoc(before: Json, after: Json, keys: seq<string>, k: string)
    requires before.Obj? && after.Obj?
    requires forall o | o in keys + [k] :: o in before.fields || o in after.fields
    ensures k in before.fields || k in after.fields
    ensures forall o | o in keys :: o in before.fields || o in after.fields
    ensures DeltaKeys(before, after, keys + [k]) == DeltaKeys(before, after, keys) + DeltaKey(before, after, k)
  {
    var more := keys + [k];
    assert k in more && forall o | o in keys :: o in more;
    assert more[..|more| - 1] == keys;
  }

  lemma ListedNext(before: Json, after: Json, path: Path, keys: seq<string>, i: nat,
                   start: seq<Operation>, listed: seq<Operation>, operations: seq<Operation>)
    requires before.Obj? && after.Obj? && i < |keys|
    requires keys[i] in before.fields || keys[i] in after.fields
    requires Listed(before, after, path, keys[..i], start, listed)
    requires operations == listed + Rendered(path, DeltaKey(before, after, keys[i]))
    ensures Listed(before, after, path, keys[..i + 1], start, operations)
  {
    assert keys[..i + 1] == keys[..i] + [keys[i]];
    DeltaKeysSnoc(before, after, keys[..i], keys[i]);
    RenderedAppend(path, DeltaKeys(before, after, keys[..i]), DeltaKey(before, after, keys[i]));
  }

  lemma RenderedAppend(path: Path, xs: seq<Edit>, ys: seq<Edit>)
    ensures Rendered(path, xs + ys) == Rendered(path, xs) + Rendered(path, ys)
  {
  }

  lemma RenderedUnder(path: Path, k: string, es: seq<Edit>)
    ensures Rendered(path + [k], es) == Rendered(path, Under(k, es))
  {
    forall i | 0 <= i < |es| ensures path + [k] + es[i].path == path + Under(k, es)[i].path {}
  }

  ghost function StoredDelta(before: Tree, after: Tree): seq<Operation> {
    Rendered([], Delta(Obj(before), Obj(after)))
  }

  method BuildPluginDelta(before: Tree, after: Tree) returns (operations: seq<Operation>)
    ensures operations == StoredDelta(before, after)
  {
    var log := new OperationLog();
    CollectDelta(Obj(before), Obj(after), [], log);
    operations := log.operations;
  }

  // ---- paths of a delta ----------------------------------------------------

  lemma {:induction false} DeltaSeparate(before: Json, after: Json)
    ensures forall i, j | 0 <= i < j < |Delta(before, after)| ::
              Incomparable(Delta(before, after)[i].path, Delta(before, after)[j].path)
    ensures before.Obj? && after.Obj? ==> Separate(Delta(before, after))
    ensures forall e | e in Delta(before, after) :: e.before.Some? || e.after.Some?
    decreases before, 1, 0
  {
    if before.Obj? && after.Obj? {
      Ordering.SortedIsSorted(before.fields.Keys + after.fields.Keys);
      DeltaKeysSeparate(before, after, Ordering.Sorted(before.fields.Keys + after.fields.Keys));
    }
  }

  lemma {:induction false} DeltaKeysSeparate(before: Json, after: Json, keys: seq<string>)
    requires before.Obj? && after.Obj?
    requires forall k | k in keys :: k in before.fields || k in after.fields
    requires forall i, j | 0 <= i < j < |keys| :: keys[i] != keys[j]
    ensures Separate(DeltaKeys(before, after, keys))
    ensures HeadedBy(DeltaKeys(before, after, keys), set x | x in keys)
    decreases before, 0, |keys|
  {
    if keys != [] {
      var n := |keys| - 1;
      var k := keys[n];
      assert k in keys;
      DeltaKeysSeparate(before, after, keys[..n]);
      if k in before.fields && k in after.fields {
        DeltaSeparate(before.fields[k], after.fields[k]);
      }
      assert Separate(DeltaKey(before, after, k)) && HeadedBy(DeltaKey(before, after, k), {k}) by {
        KeySeparate(before, after, k);
      }
      var earlier := set x | x in keys[..n];
      assert HeadedBy(DeltaKeys(before, after, keys[..n]), earlier);
      SeparateAppend(DeltaKeys(before, after, keys[..n]), DeltaKey(before, after, k), earlier, {k});
    }
  }

  ghost predicate HeadedBy(es: seq<Edit>, heads: set<string>) {
    forall e | e in es :: e.path != [] && e.path[0] in heads && (e.before.Some? || e.after.Some?)
  }

  lemma SeparateAppend(xs: seq<Edit>, ys: seq<Edit>, hx: set<string>, hy: set<string>)
    requires Separate(xs) && Separate(ys) && HeadedBy(xs, hx) && HeadedBy(ys, hy) && hx !! hy
    ensures Separate(xs + ys) && HeadedBy(xs + ys, hx + hy)
  {
    var es := xs + ys;
    forall i, j | 0 <= i < j < |es| ensures Incomparable(es[i].path, es[j].path) {
      if i < |xs| && |xs| <= j {
        assert es[i] in xs && es[j] in ys;
      }
    }
  }

  /** Edits below one key stay incomparable after the key is put in front of them. */
  lemma KeySeparate(before: Json, after: Json, k: string)
    requires before.Obj? && after.Obj? && (k in before.fields || k in after.fields)
    requires k in before.fields && k in after.fields ==> Apart(Delta(before.fields[k], after.fields[k]))
    ensures Separate(DeltaKey(before, after, k)) && HeadedBy(DeltaKey(before, after, k), {k})
  {
    if k in before.fields && k in after.fields {
      UnderSeparate(k, Delta(before.fields[k], after.fields[k]));
    }
  }

  /** Incomparable paths and a value on one side at least; a single edit may be at the root. */
  ghost predicate Apart(es: seq<Edit>) {
    && (forall i, j | 0 <= i < j < |es| :: Incomparable(es[i].path, es[j].path))
    && (forall e | e in es :: e.before.Some? || e.after.Some?)
  }

  lemma UnderSeparate(k: string, es: seq<Edit>)
    requires Apart(es)
    ensures Separate(Under(k, es)) && HeadedBy(Under(k, es), {k})
  {
    forall i, j | 0 <= i < j < |es| ensures Incomparable(Under(k, es)[i].path, Under(k, es)[j].path) {
      PrefixUnder(k, es[i].path, es[j].path);
      PrefixUnder(k, es[j].path, es[i].path);
    }
    forall e | e in Under(k, es) ensures e.path != [] && e.path[0] == k && (e.before.Some? || e.after.Some?) {
      var i :| 0 <= i < |es| && Under(k, es)[i] == e;
      assert es[i] in es;
    }
  }

  lemma PrefixUnder(k: string, p: Path, q: Path)
    ensures [k] + p <= [k] + q ==> p <= q
  {
    if [k] + p <= [k] + q {
      assert ([k] + q)[..|p| + 1] == [k] + p;
      assert p == ([k] + p)[1..];
      assert q[..|p|] == ([k] + q)[1..|p| + 1];
    }
  }

  // ---- reading and writing one place ---------------------------------------

  ghost function Lookup(v: Json, path: Path): Option<Json> {
    if path == [] then Some(v)
    else if v.Obj? && path[0] in v.fields then Lookup(v.fields[path[0]], path[1..])
    else None
  }

  method LookupLoop(root: Json, path: Path) returns (found: Option<Json>)
    ensures found == Lookup(root, path)
  {
    var current := root;
    for i := 0 to |path|
      invariant Lookup(root, path) == Lookup(current, path[i..])
    {
      if !current.Obj? || path[i] !in current.fields { return None; }
      current := current.fields[path[i]];
      assert path[i..][1..] == path[i + 1..];
    }
    return Some(current);
  }

  function ChildOf(m: Tree, k: string): Tree {
    if k in m && m[k].Obj? then m[k].fields else map[]
  }

  /** `_assign`: missing or non-dict parents become dicts; an absent value removes the key. */
  function Assign(m: Tree, path: Path, v: Option<Json>): Tree
    requires path != []
    decreases |path|
  {
    if |path| == 1 then
      if v.Some? then m[path[0] := v.value] else m - {path[0]}
    else m[path[0] := Obj(Assign(ChildOf(m, path[0]), path[1..], v))]
  }

  lemma {:induction false} LookupAssigned(m: Tree, p: Path, v: Option<Json>)
    requires p != []
    ensures Lookup(Obj(Assign(m, p, v)), p) == v
    decreases |p|
  {
    if |p| > 1 {
      LookupAssigned(ChildOf(m, p[0]), p[1..], v);
    }
  }

  lemma {:induction false} LookupElsewhere(m: Tree, p: Path, v: Option<Json>, q: Path)
    requires p != [] && Incomparable(p, q)
    ensures Lookup(Obj(Assign(m, p, v)), q) == Lookup(Obj(m), q)
    decreases |p|
  {
    if p[0] == q[0] {
      assert p == [p[0]] + p[1..] && q == [q[0]] + q[1..];
      assert |p| > 1 && |q| > 1;
      LookupElsewhere(ChildOf(m, p[0]), p[1..], v, q[1..]);
    }
  }

  lemma NestedAssigns(m: Tree, p: Path, v: Option<Json>, q: Path, w: Option<Json>)
    requires |p| > 1 && |q| > 1 && p[0] == q[0]
    ensures Assign(Assign(m, p, v), q, w)
         == m[p[0] := Obj(Assign(Assign(ChildOf(m, p[0]), p[1..], v), q[1..], w))]
  {
    var mp := Assign(m, p, v);
    assert ChildOf(mp, p[0]) == Assign(ChildOf(m, p[0]), p[1..], v);
    assert Assign(mp, q, w) == mp[p[0] := Obj(Assign(ChildOf(mp, p[0]), q[1..], w))];
  }

  lemma AssignsAtTwoKeys(m: Tree, p: Path, v: Option<Json>, q: Path, w: Option<Json>)
    requires p != [] && q != [] && p[0] != q[0]
    ensures Assign(Assign(m, p, v), q, w) == Assign(Assign(m, q, w), p, v)
  {
    var l, r := Assign(Assign(m, p, v), q, w), Assign(Assign(m, q, w), p, v);
    AssignOneKey(m, p, v);
    AssignOneKey(m, q, w);
    AssignOneKey(Assign(m, p, v), q, w);
    AssignOneKey(Assign(m, q, w), p, v);
    forall k: string ensures (k in l) == (k in r) && (k in l ==> l[k] == r[k]) {
      if k != p[0] && k != q[0] {
        assert (k in l) == (k in m) == (k in r);
      }
    }
  }

  /** An assignment changes one root key, and only as a function of what that key held. */
  lemma AssignOneKey(m: Tree, p: Path, v: Option<Json>)
    requires p != []
    ensures forall k: string | k != p[0] :: (k in Assign(m, p, v)) == (k in m) && (k in m ==> Assign(m, p, v)[k] == m[k])
    ensures (p[0] in Assign(m, p, v)) == (|p| > 1 || v.Some?)
    ensures p[0] in Assign(m, p, v) ==>
      Assign(m, p, v)[p[0]] == if |p| == 1 then v.value else Obj(Assign(ChildOf(m, p[0]), p[1..], v))
  {
  }

  lemma {:induction false} AssignsCommute(m: Tree, p: Path, v: Option<Json>, q: Path, w: Option<Json>)
    requires p != [] && Incomparable(p, q)
    ensures Assign(Assign(m, p, v), q, w) == Assign(Assign(m, q, w), p, v)
    decreases |p|
  {
    if p[0] == q[0] {
      assert p == [p[0]] + p[1..] && q == [q[0]] + q[1..];
      assert |p| > 1 && |q| > 1;
      AssignsCommute(ChildOf(m, p[0]), p[1..], v, q[1..], w);
      NestedAssigns(m, p, v, q, w);
      NestedAssigns(m, q, w, p, v);
    } else {
      AssignsAtTwoKeys(m, p, v, q, w);
    }
  }

  // ---- undoing edits -------------------------------------------------------

  /** The recorded after-value is still in place, by Python equality. */
  ghost predicate Holds(m: Tree, e: Edit) {
    match (Lookup(Obj(m), e.path), e.after)
    case (None, None) => true
    case (Some(x), Some(y)) => PyEq(x, y)
    case (_, _) => false
  }

  ghost function UndoOne(m: Tree, e: Edit): Tree
    requires e.path != []
  {
    if Holds(m, e) then Assign(m, e.path, e.before) else m
  }

  /** The tree after undoing `es`, last edit first. */
  ghost function Inverted(m: Tree, es: seq<Edit>): Tree
    requires forall e | e in es :: e.path != []
    decreases |es|
  {
    if es == [] then m
    else Inverted(UndoOne(m, es[|es| - 1]), es[..|es| - 1])
  }

  predicate Rooted(entries: seq<Entry>) {
    forall e | e in entries :: e.edit.path != []
  }

  function Edits(entries: seq<Entry>): (es: seq<Edit>)
    requires Rooted(entries)
    ensures forall e | e in es :: e.path != []
  {
    seq(|entries|, i requires 0 <= i < |entries| => entries[i].edit)
  }

  lemma EditsInit(entries: seq<Entry>)
    requires Rooted(entries) && entries != []
    ensures Edits(entries)[..|entries| - 1] == Edits(entries[..|entries| - 1])
    ensures Edits(entries)[|entries| - 1] == entries[|entries| - 1].edit
  {
  }

  /** The entries skipped on the way, in the order they are met. */
  ghost function Conflicts(m: Tree, entries: seq<Entry>): (r: seq<Entry>)
    requires Rooted(entries)
    ensures Rooted(r)
    decreases |entries|
  {
    if entries == [] then []
    else
      var last := entries[|entries| - 1];
      (if Holds(m, last.edit) then [] else [last])
      + Conflicts(UndoOne(m, last.edit), entries[..|entries| - 1])
  }

  /** The pointers of `entries` that belong to one plugin, the first key of the path. */
  ghost function PointersOf(entries: seq<Entry>, plugin: string): seq<string>
    requires Rooted(entries)
  {
    if entries == [] then []
    else
      var n := |entries| - 1;
      assert entries[n] in entries;
      PointersOf(entries[..n], plugin) + (if entries[n].edit.path[0] == plugin then [entries[n].pointer] else [])
  }

  ghost function Grouped(entries: seq<Entry>): map<string, seq<string>>
    requires Rooted(entries)
  {
    map p | p in (set e | e in entries :: e.edit.path[0]) :: PointersOf(entries, p)
  }

  lemma GroupedSnoc(entries: seq<Entry>, e: Entry)
    requires Rooted(entries) && e.edit.path != []
    ensures var id, g := e.edit.path[0], Grouped(entries);
            Grouped(entries + [e]) == g[id := (if id in g then g[id] else []) + [e.pointer]]
  {
    var id, g := e.edit.path[0], Grouped(entries);
    var r := g[id := (if id in g then g[id] else []) + [e.pointer]];
    forall k: string
      ensures (k in Grouped(entries + [e])) == (k in r) && (k in r ==> Grouped(entries + [e])[k] == r[k])
    {
      GroupedAt(entries, e, k);
    }
  }

  lemma GroupedAt(entries: seq<Entry>, e: Entry, k: string)
    requires Rooted(entries) && e.edit.path != []
    ensures k in Grouped(entries + [e]) <==> k in Grouped(entries) || k == e.edit.path[0]
    ensures k in Grouped(entries + [e]) ==>
      Grouped(entries + [e])[k] ==
        (if k in Grouped(entries) then Grouped(entries)[k] else []) + (if k == e.edit.path[0] then [e.pointer] else [])
  {
    var more := entries + [e];
    assert more[..|more| - 1] == entries;
    assert forall x :: x in more <==> x in entries || x == e;
    PointersOfAbsent(entries, k);
  }

  /** A resolver is asked about exactly the conflicting pointers of its own plugin. */
  lemma GroupedExact(entries: seq<Entry>, plugin: string, pointer: string)
    requires Rooted(entries)
    ensures plugin in Grouped(entries) <==> exists e | e in entries :: e.edit.path[0] == plugin
    ensures plugin in Grouped(entries) ==>
      (pointer in Grouped(entries)[plugin] <==> exists e | e in entries :: e.edit.path[0] == plugin && e.pointer == pointer)
  {
    PointersExact(entries, plugin, pointer);
  }

  lemma {:induction false} PointersExact(entries: seq<Entry>, plugin: string, pointer: string)
    requires Rooted(entries)
    ensures pointer in PointersOf(entries, plugin) <==>
              exists e | e in entries :: e.edit.path[0] == plugin && e.pointer == pointer
  {
    if entries != [] {
      var n := |entries| - 1;
      assert entries == entries[..n] + [entries[n]] && entries[n] in entries;
      PointersExact(entries[..n], plugin, pointer);
    }
  }

  lemma {:induction false} PointersOfAbsent(entries: seq<Entry>, plugin: string)
    requires Rooted(entries)
    ensures plugin !in Grouped(entries) ==> PointersOf(entries, plugin) == []
  {
    if entries != [] {
      var n := |entries| - 1;
      assert entries[n] in entries;
      PointersOfAbsent(entries[..n], plugin);
    }
  }

  datatype Inversion = Inversion(merged: Tree, conflicts: map<string, seq<string>>)

  predicate AllValid(operations: seq<Operation>) {
    forall o | o in operations :: o.Valid()
  }

  function Entries(operations: seq<Operation>): (entries: seq<Entry>)
    requires AllValid(operations)
    ensures Rooted(entries)
  {
    seq(|operations|, i requires 0 <= i < |operations| => assert operations[i] in operations; operations[i].Read())
  }

  /** `i` entries are still to undo; `merged` and `skipped` account for the others. */
  ghost predicate Progress(current: Tree, entries: seq<Entry>, i: nat, merged: Tree, skipped: seq<Entry>)
    requires i <= |entries| && Rooted(entries)
  {
    && Inverted(current, Edits(entries)) == Inverted(merged, Edits(entries[..i]))
    && Conflicts(current, entries) == skipped + Conflicts(merged, entries[..i])
  }

  lemma ProgressStep(current: Tree, entries: seq<Entry>, i: nat, merged: Tree, skipped: seq<Entry>)
    requires i < |entries| && Rooted(entries) && Progress(current, entries, i + 1, merged, skipped)
    ensures entries[i] in entries
    ensures Progress(current, entries, i, UndoOne(merged, entries[i].edit),
                     if Holds(merged, entries[i].edit) then skipped else skipped + [entries[i]])
  {
    assert entries[i] in entries;
    var now := entries[..i + 1];
    assert now[..i] == entries[..i] && now[i] == entries[i];
    OneUndone(merged, now);
  }

  lemma OneUndone(m: Tree, entries: seq<Entry>)
    requires Rooted(entries) && entries != []
    ensures var n := |entries| - 1;
            && Inverted(m, Edits(entries)) == Inverted(UndoOne(m, entries[n].edit), Edits(entries[..n]))
            && Conflicts(m, entries)
               == (if Holds(m, entries[n].edit) then [] else [entries[n]]) + Conflicts(UndoOne(m, entries[n].edit), entries[..n])
  {
    EditsInit(entries);
  }

  /** Progress through stored operations, whenever their pointers are all readable. */
  ghost predicate Sofar(current: Tree, operations: seq<Operation>, i: nat, merged: Tree, skipped: seq<Entry>) {
    AllValid(operations) ==> i <= |operations| && Progress(current, Entries(operations), i, merged, skipped)
  }

  lemma SofarStart(current: Tree, operations: seq<Operation>)
    ensures Sofar(current, operations, |operations|, current, [])
  {
    if AllValid(operations) {
      var entries := Entries(operations);
      assert entries[..|operations|] == entries;
    }
  }

  lemma SofarStep(current: Tree, operations: seq<Operation>, i: nat, merged: Tree, skipped: seq<Entry>)
    requires i < |operations| && operations[i].Valid()
    requires Sofar(current, operations, i + 1, merged, skipped)
    ensures var e := operations[i].Read();
            Sofar(current, operations, i, UndoOne(merged, e.edit),
                  if Holds(merged, e.edit) then skipped else skipped + [e])
  {
    if AllValid(operations) {
      ProgressStep(current, Entries(operations), i, merged, skipped);
    }
  }

  lemma SofarDone(current: Tree, operations: seq<Operation>, merged: Tree, skipped: seq<Entry>)
    requires AllValid(operations) && Sofar(current, operations, 0, merged, skipped)
    ensures merged == Inverted(current, Edits(Entries(operations)))
    ensures skipped == Conflicts(current, Entries(operations))
  {
  }

  method StillHolds(m: Tree, e: Edit) returns (intact: bool)
    ensures intact == Holds(m, e)
  {
    var found := LookupLoop(Obj(m), e.path);
    intact := found.Some? == e.after.Some? && (found.Some? ==> PyEq(found.value, e.after.value));
  }

  method InvertPluginDelta(current: Tree, operations: seq<Operation>) returns (r: Result<Inversion, string>)
    ensures r.Success? <==> AllValid(operations)
    ensures r.Success? ==>
      r.value == Inversion(Inverted(current, Edits(Entries(operations))), Grouped(Conflicts(current, Entries(operations))))
  {
    var merged := current;
    var conflicts: map<string, seq<string>> := map[];
    ghost var skipped: seq<Entry> := [];
    var i := |operations|;
    SofarStart(current, operations);
    while i > 0
      invariant 0 <= i <= |operations|
      invariant forall k | i <= k < |operations| :: operations[k].Valid()
      invariant Rooted(skipped) && conflicts == Grouped(skipped)
      invariant Sofar(current, operations, i, merged, skipped)
    {
      i := i - 1;
      var operation := operations[i];
      if !operation.Valid() {
        assert operation in operations;
        return Failure("Invalid JSON Pointer");
      }
      SofarStep(current, operations, i, merged, skipped);
      var entry := operation.Read();
      var intact := StillHolds(merged, entry.edit);
      if !intact {
        var plugin := entry.edit.path[0];
        conflicts := conflicts[plugin := (if plugin in conflicts then conflicts[plugin] else []) + [entry.pointer]];
        GroupedSnoc(skipped, entry);
        skipped := skipped + [entry];
      } else {
        merged := Assign(merged, entry.edit.path, entry.edit.before);
      }
    }
    SofarDone(current, operations, merged, skipped);
    return Success(Inversion(merged, conflicts));
  }
}
