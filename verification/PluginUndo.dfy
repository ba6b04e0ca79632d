/** What undoing a plugin-state delta guarantees: exact inverse, conflicts, reach and order. */
module PluginUndo {
  import opened Wrappers
  import opened Json
  import opened PluginDelta
  import Ordering
  import Pointer

  // ---- composition ---------------------------------------------------------

  lemma {:induction false} InvertedAppend(m: Tree, xs: seq<Edit>, ys: seq<Edit>)
    requires forall e | e in xs + ys :: e.path != []
    ensures forall e | e in xs :: e.path != []
    ensures forall e | e in ys :: e.path != []
    ensures Inverted(m, xs + ys) == Inverted(Inverted(m, ys), xs)
    decreases |ys|
  {
    assert forall e | e in xs :: e in xs + ys;
    assert forall e | e in ys :: e in xs + ys;
    if ys == [] {
      assert xs + ys == xs;
    } else {
      var n := |ys| - 1;
      var all := xs + ys;
      assert all[..|all| - 1] == xs + ys[..n] && all[|all| - 1] == ys[n];
      InvertedAppend(UndoOne(m, ys[n]), xs, ys[..n]);
    }
  }

  lemma {:induction false} InvertedUnder(m: Tree, k: string, es: seq<Edit>)
    requires k in m && m[k].Obj?
    requires forall e | e in es :: e.path != []
    ensures Inverted(m, Under(k, es)) == m[k := Obj(Inverted(m[k].fields, es))]
    decreases |es|
  {
    var us := Under(k, es);
    if es != [] {
      var n := |es| - 1;
      var e := es[n];
      assert us[n].path == [k] + e.path && us[n].path[1..] == e.path && us[..n] == Under(k, es[..n]);
      assert Holds(m, us[n]) == Holds(m[k].fields, e);
      var m' := UndoOne(m, us[n]);
      assert m' == m[k := Obj(UndoOne(m[k].fields, e))];
      InvertedUnder(m', k, es[..n]);
    }
  }

  /** Every edit finds its after-value when its turn comes. */
  ghost predicate AllHold(m: Tree, es: seq<Edit>)
    requires forall e | e in es :: e.path != []
    decreases |es|
  {
    es == [] || (var n := |es| - 1; Holds(m, es[n]) && AllHold(UndoOne(m, es[n]), es[..n]))
  }

  lemma {:induction false} AllHoldAppend(m: Tree, xs: seq<Edit>, ys: seq<Edit>)
    requires forall e | e in xs + ys :: e.path != []
    requires forall e | e in xs :: e.path != []
    requires forall e | e in ys :: e.path != []
    ensures AllHold(m, xs + ys) <==> AllHold(m, ys) && AllHold(Inverted(m, ys), xs)
    decreases |ys|
  {
    if ys == [] {
      assert xs + ys == xs;
    } else {
      var n := |ys| - 1;
      var all := xs + ys;
      assert all[..|all| - 1] == xs + ys[..n] && all[|all| - 1] == ys[n];
      AllHoldAppend(UndoOne(m, ys[n]), xs, ys[..n]);
    }
  }

  lemma {:induction false} AllHoldUnder(m: Tree, k: string, es: seq<Edit>)
    requires k in m && m[k].Obj?
    requires forall e | e in es :: e.path != []
    ensures AllHold(m, Under(k, es)) == AllHold(m[k].fields, es)
    decreases |es|
  {
    var us := Under(k, es);
    if es != [] {
      var n := |es| - 1;
      var e := es[n];
      assert us[n].path == [k] + e.path && us[n].path[1..] == e.path && us[..n] == Under(k, es[..n]);
      assert Holds(m, us[n]) == Holds(m[k].fields, e);
      assert UndoOne(m, us[n]) == m[k := Obj(UndoOne(m[k].fields, e))];
      AllHoldUnder(UndoOne(m, us[n]), k, es[..n]);
    }
  }

  lemma {:induction false} AllHoldMeansNoConflicts(m: Tree, entries: seq<Entry>)
    requires Rooted(entries)
    ensures AllHold(m, Edits(entries)) <==> Conflicts(m, entries) == []
    decreases |entries|
  {
    if entries != [] {
      var n := |entries| - 1;
      EditsInit(entries);
      AllHoldMeansNoConflicts(UndoOne(m, entries[n].edit), entries[..n]);
    }
  }

  // ---- the delta's own inverse ---------------------------------------------

  /** What undoing the delta of `before` and `after` leaves: `before`, except where Python cannot
      tell the two values apart (1, 1.0, True), so that no edit was recorded. */
  ghost function Rebuilt(before: Json, after: Json): Json
    decreases before
  {
    if before.Obj? && after.Obj? then
      Obj(map k | k in before.fields ::
        if k in after.fields then Rebuilt(before.fields[k], after.fields[k]) else before.fields[k])
    else if PyEq(before, after) then after
    else before
  }

  /** No place holds two different values that Python calls equal. */
  ghost predicate NoPun(before: Json, after: Json)
    decreases before
  {
    if before.Obj? && after.Obj? then
      forall k | k in before.fields && k in after.fields :: NoPun(before.fields[k], after.fields[k])
    else PyEq(before, after) ==> before == after
  }

  lemma {:induction false} RebuiltEqual(before: Json, after: Json)
    ensures PyEq(Rebuilt(before, after), before)
    decreases before
  {
    if before.Obj? && after.Obj? {
      forall k | k in before.fields ensures PyEq(Rebuilt(before, after).fields[k], before.fields[k]) {
        if k in after.fields {
          RebuiltEqual(before.fields[k], after.fields[k]);
        } else {
          PyEqReflexive(before.fields[k]);
        }
      }
    } else if PyEq(before, after) {
      PyEqSymmetric(before, after);
    } else {
      PyEqReflexive(before);
    }
  }

  lemma {:induction false} RebuiltExact(before: Json, after: Json)
    ensures Rebuilt(before, after) == before <==> NoPun(before, after)
    decreases before
  {
    if before.Obj? && after.Obj? {
      var r := Rebuilt(before, after);
      forall k | k in before.fields && k in after.fields
        ensures r.fields[k] == before.fields[k] <==> NoPun(before.fields[k], after.fields[k])
      {
        RebuiltExact(before.fields[k], after.fields[k]);
      }
      if NoPun(before, after) {
        assert r.fields == before.fields;
      }
    }
  }

  /** `m` and `n` hold the same thing at `k`. */
  ghost predicate SameAt(m: Tree, n: Tree, k: string) {
    (k in m) == (k in n) && (k in m ==> m[k] == n[k])
  }

  /** At `k`, `r` is the rebuilt tree. */
  ghost predicate RebuiltAt(r: Tree, before: Tree, after: Tree, k: string) {
    && (k in r) == (k in before)
    && (k in r ==> r[k] == if k in after then Rebuilt(before[k], after[k]) else before[k])
  }

  lemma {:induction false} UndoKey(before: Json, after: Json, k: string, m: Tree)
    requires before.Obj? && after.Obj? && (k in before.fields || k in after.fields)
    requires SameAt(m, after.fields, k)
    ensures forall e | e in DeltaKey(before, after, k) :: e.path != []
    ensures var es := DeltaKey(before, after, k);
            && AllHold(m, es)
            && RebuiltAt(Inverted(m, es), before.fields, after.fields, k)
            && forall o: string | o != k :: SameAt(Inverted(m, es), m, o)
    decreases before, 0, 0
  {
    var es := DeltaKey(before, after, k);
    if k !in before.fields || k !in after.fields {
      var e := es[0];
      if k in m { PyEqReflexive(m[k]); }
      assert Lookup(Obj(m), e.path) == (if k in m then Some(m[k]) else None);
      UndoSingle(m, e);
    } else if before.fields[k].Obj? && after.fields[k].Obj? {
      UndoTree(before.fields[k], after.fields[k]);
      UndoBelow(m, k, before.fields[k], after.fields[k], es);
    } else if !PyEq(before.fields[k], after.fields[k]) {
      PyEqReflexive(m[k]);
      var e := es[0];
      assert e.path == [k] && es == [e];
      assert Lookup(Obj(m), e.path) == Some(m[k]);
      UndoSingle(m, e);
    }
  }

  lemma UndoBelow(m: Tree, k: string, before: Json, after: Json, es: seq<Edit>)
    requires k in m && m[k] == after && before.Obj? && after.Obj? && es == Under(k, Delta(before, after))
    requires forall e | e in Delta(before, after) :: e.path != []
    requires AllHold(after.fields, Delta(before, after))
    requires Obj(Inverted(after.fields, Delta(before, after))) == Rebuilt(before, after)
    ensures forall e | e in es :: e.path != []
    ensures AllHold(m, es) && Inverted(m, es) == m[k := Rebuilt(before, after)]
  {
    InvertedUnder(m, k, Delta(before, after));
    AllHoldUnder(m, k, Delta(before, after));
  }

  lemma UndoSingle(m: Tree, e: Edit)
    requires e.path != [] && Holds(m, e)
    ensures AllHold(m, [e]) && Inverted(m, [e]) == Assign(m, e.path, e.before)
  {
    assert [e][..0] == [];
  }

  lemma {:induction false} UndoKeys(before: Json, after: Json, keys: seq<string>, m: Tree)
    requires before.Obj? && after.Obj?
    requires forall k | k in keys :: k in before.fields || k in after.fields
    requires forall i, j | 0 <= i < j < |keys| :: keys[i] != keys[j]
    requires forall k | k in keys :: SameAt(m, after.fields, k)
    ensures forall e | e in DeltaKeys(before, after, keys) :: e.path != []
    ensures var es := DeltaKeys(before, after, keys);
            && AllHold(m, es)
            && (forall k | k in keys :: RebuiltAt(Inverted(m, es), before.fields, after.fields, k))
            && (forall k: string | k !in keys :: SameAt(Inverted(m, es), m, k))
    decreases before, 0, |keys|
  {
    if keys != [] {
      var n := |keys| - 1;
      var k := keys[n];
      assert k in keys && k !in keys[..n] && keys == keys[..n] + [k];
      var xs, ys := DeltaKeys(before, after, keys[..n]), DeltaKey(before, after, k);
      UndoKey(before, after, k, m);
      var m' := Inverted(m, ys);
      forall o | o in keys[..n] ensures SameAt(m', after.fields, o) {
        assert o in keys && o != k && SameAt(m, after.fields, o) && SameAt(m', m, o);
      }
      UndoKeys(before, after, keys[..n], m');
      InvertedAppend(m, xs, ys);
      AllHoldAppend(m, xs, ys);
      KeysJoin(before.fields, after.fields, keys, m, m', Inverted(m', xs));
    }
  }

  /** Bookkeeping of `UndoKeys`: the last key was rebuilt in `m'`, the others in `r`. */
  lemma KeysJoin(before: Tree, after: Tree, keys: seq<string>, m: Tree, m': Tree, r: Tree)
    requires keys != []
    requires forall i, j | 0 <= i < j < |keys| :: keys[i] != keys[j]
    requires RebuiltAt(m', before, after, keys[|keys| - 1])
    requires forall o: string | o != keys[|keys| - 1] :: SameAt(m', m, o)
    requires forall k | k in keys[..|keys| - 1] :: RebuiltAt(r, before, after, k)
    requires forall k: string | k !in keys[..|keys| - 1] :: SameAt(r, m', k)
    ensures forall k | k in keys :: RebuiltAt(r, before, after, k)
    ensures forall k: string | k !in keys :: SameAt(r, m, k)
  {
    var n := |keys| - 1;
    assert keys == keys[..n] + [keys[n]];
    forall k | k in keys ensures RebuiltAt(r, before, after, k) {
      if k !in keys[..n] {
        assert SameAt(r, m', k);
      }
    }
    forall k: string | k !in keys ensures SameAt(r, m, k) {
      assert SameAt(r, m', k) && SameAt(m', m, k);
    }
  }

  lemma {:induction false} UndoTree(before: Json, after: Json)
    requires before.Obj? && after.Obj?
    ensures forall e | e in Delta(before, after) :: e.path != []
    ensures AllHold(after.fields, Delta(before, after))
    ensures Obj(Inverted(after.fields, Delta(before, after))) == Rebuilt(before, after)
    decreases before, 1, 0
  {
    var all := before.fields.Keys + after.fields.Keys;
    Ordering.SortedIsSorted(all);
    UndoKeys(before, after, Ordering.Sorted(all), after.fields);
    RebuiltEverywhere(before, after, all, Inverted(after.fields, Delta(before, after)));
  }

  lemma RebuiltEverywhere(before: Json, after: Json, all: set<string>, r: Tree)
    requires before.Obj? && after.Obj? && all == before.fields.Keys + after.fields.Keys
    requires forall k | k in all :: RebuiltAt(r, before.fields, after.fields, k)
    requires forall k: string | k !in all :: SameAt(r, after.fields, k)
    ensures Obj(r) == Rebuilt(before, after)
  {
    var w := Rebuilt(before, after).fields;
    forall k: string ensures SameAt(r, w, k) {
      if k in all {
        assert RebuiltAt(r, before.fields, after.fields, k);
      } else {
        assert SameAt(r, after.fields, k);
      }
    }
    assert r.Keys == w.Keys by {
      forall k: string ensures k in r.Keys <==> k in w.Keys { assert SameAt(r, w, k); }
    }
    assert r == w;
  }

  /** Reading back a stored delta gives the edits it was written from. */
  lemma StoredEdits(before: Tree, after: Tree)
    ensures AllValid(StoredDelta(before, after))
    ensures Edits(Entries(StoredDelta(before, after))) == Delta(Obj(before), Obj(after))
    ensures Separate(Delta(Obj(before), Obj(after)))
  {
    var es := Delta(Obj(before), Obj(after));
    DeltaSeparate(Obj(before), Obj(after));
    RenderedValid([], es);
    var ops := StoredDelta(before, after);
    forall i | 0 <= i < |es| ensures Entries(ops)[i].edit == es[i] {
      assert es[i] in es && [] + es[i].path == es[i].path;
      Pointer.RenderParse(es[i].path);
    }
  }

  /** Undoing a delta on the state it produced: no conflict, and the original state again, exactly
      when no place holds two different values that Python calls equal. */
  lemma DeltaRoundTrip(before: Tree, after: Tree)
    ensures AllValid(StoredDelta(before, after))
    ensures var entries := Entries(StoredDelta(before, after));
            && Conflicts(after, entries) == []
            && PyEq(Obj(Inverted(after, Edits(entries))), Obj(before))
            && (Inverted(after, Edits(entries)) == before <==> NoPun(Obj(before), Obj(after)))
  {
    StoredEdits(before, after);
    var entries := Entries(StoredDelta(before, after));
    UndoTree(Obj(before), Obj(after));
    AllHoldMeansNoConflicts(after, entries);
    RebuiltEqual(Obj(before), Obj(after));
    RebuiltExact(Obj(before), Obj(after));
  }

  /** A plugin that turns 1 into True leaves no edit behind, and the undo keeps True. */
  lemma PunIsNotUndone()
    ensures var before, after: Tree := map["p" := Int(1)], map["p" := Bool(true)];
            && StoredDelta(before, after) == []
            && !NoPun(Obj(before), Obj(after))
  {
    var before: Tree, after: Tree := map["p" := Int(1)], map["p" := Bool(true)];
    assert !NoPun(Int(1), Bool(true));
    assert "p" in before && "p" in after;
    var b, a := Obj(before), Obj(after);
    assert b.fields.Keys + a.fields.Keys == {"p"};
    OneKeyDelta(b, a, "p");
    assert DeltaKey(b, a, "p") == Under("p", Delta(Int(1), Bool(true))) == [];
  }

  // ---- undoing after later writes ------------------------------------------

  /** An edit elsewhere changes neither what an edit sees nor, once undone, what it leaves. */
  lemma HoldsElsewhere(m: Tree, e: Edit, f: Edit)
    requires e.path != [] && Incomparable(e.path, f.path)
    ensures Holds(UndoOne(m, e), f) == Holds(m, f)
  {
    if Holds(m, e) { LookupElsewhere(m, e.path, e.before, f.path); }
  }

  lemma {:induction false} UndoOnesCommute(m: Tree, e: Edit, f: Edit)
    requires e.path != [] && f.path != [] && Incomparable(e.path, f.path)
    ensures UndoOne(UndoOne(m, e), f) == UndoOne(UndoOne(m, f), e)
  {
    HoldsElsewhere(m, e, f);
    HoldsElsewhere(m, f, e);
    if Holds(m, e) && Holds(m, f) {
      AssignsCommute(m, e.path, e.before, f.path, f.before);
    }
  }

  lemma SeparateInit(es: seq<Edit>)
    requires Separate(es) && es != []
    ensures Separate(es[..|es| - 1])
    ensures forall e | e in es[..|es| - 1] :: Incomparable(es[|es| - 1].path, e.path)
  {
    forall e | e in es[..|es| - 1] ensures Incomparable(es[|es| - 1].path, e.path) {
      var i :| 0 <= i < |es| - 1 && es[i] == e;
    }
  }

  /** A place that no fulfilled edit reaches keeps what it holds. */
  lemma {:induction false} OutOfReach(m: Tree, es: seq<Edit>, q: Path)
    requires Separate(es)
    requires forall e | e in es :: Holds(m, e) ==> Incomparable(e.path, q)
    ensures Lookup(Obj(Inverted(m, es)), q) == Lookup(Obj(m), q)
    decreases |es|
  {
    if es != [] {
      var n := |es| - 1;
      var last := es[n];
      SeparateInit(es);
      var m' := UndoOne(m, last);
      if Holds(m, last) { LookupElsewhere(m, last.path, last.before, q); }
      forall e | e in es[..n] ensures Holds(m', e) == Holds(m, e) { HoldsElsewhere(m, last, e); }
      OutOfReach(m', es[..n], q);
    }
  }

  /** Whatever was written since: an edit whose after-value is still there is undone, ... */
  lemma {:induction false} FulfilledIsRestored(m: Tree, es: seq<Edit>, e: Edit)
    requires Separate(es) && e in es && Holds(m, e)
    ensures Lookup(Obj(Inverted(m, es)), e.path) == e.before
    decreases |es|
  {
    var n := |es| - 1;
    var last := es[n];
    SeparateInit(es);
    var m' := UndoOne(m, last);
    forall f | f in es[..n] ensures Holds(m', f) == Holds(m, f) { HoldsElsewhere(m, last, f); }
    if e == last {
      LookupAssigned(m, e.path, e.before);
      OutOfReach(m', es[..n], e.path);
    } else {
      assert e in es[..n];
      FulfilledIsRestored(m', es[..n], e);
    }
  }

  /** ... and the others are reported, every one of them and nothing else. */
  ghost function Stale(m: Tree, entries: seq<Entry>): seq<Entry> {
    if entries == [] then []
    else
      var n := |entries| - 1;
      (if Holds(m, entries[n].edit) then [] else [entries[n]]) + Stale(m, entries[..n])
  }

  lemma {:induction false} ConflictsAreStale(m: Tree, entries: seq<Entry>)
    requires Rooted(entries) && Separate(Edits(entries))
    ensures Conflicts(m, entries) == Stale(m, entries)
    decreases |entries|
  {
    if entries != [] {
      var n := |entries| - 1;
      var last := entries[n].edit;
      assert Edits(entries)[..n] == Edits(entries[..n]);
      SeparateInit(Edits(entries));
      var m' := UndoOne(m, last);
      forall i | 0 <= i < n ensures Holds(m', entries[i].edit) == Holds(m, entries[i].edit) {
        assert Edits(entries)[..n][i] in Edits(entries)[..n];
        HoldsElsewhere(m, last, entries[i].edit);
      }
      ConflictsAreStale(m', entries[..n]);
      StaleAgrees(m', m, entries[..n]);
    }
  }

  lemma {:induction false} StaleAgrees(m: Tree, m': Tree, entries: seq<Entry>)
    requires forall i | 0 <= i < |entries| :: Holds(m, entries[i].edit) == Holds(m', entries[i].edit)
    ensures Stale(m, entries) == Stale(m', entries)
  {
    if entries != [] { StaleAgrees(m, m', entries[..|entries| - 1]); }
  }

  lemma {:induction false} StaleMembers(m: Tree, entries: seq<Entry>)
    ensures forall e :: e in Stale(m, entries) <==> e in entries && !Holds(m, e.edit)
  {
    if entries != [] {
      var n := |entries| - 1;
      assert entries == entries[..n] + [entries[n]];
      StaleMembers(m, entries[..n]);
    }
  }

  lemma EditsMembers(entries: seq<Entry>)
    requires Rooted(entries)
    ensures forall e | e in entries :: e.edit in Edits(entries)
    ensures forall f | f in Edits(entries) :: exists e :: e in entries && e.edit == f
  {
    forall e | e in entries ensures e.edit in Edits(entries) {
      var i :| 0 <= i < |entries| && entries[i] == e;
      assert Edits(entries)[i] == e.edit;
    }
    forall f | f in Edits(entries) ensures exists e :: e in entries && e.edit == f {
      var i :| 0 <= i < |entries| && Edits(entries)[i] == f;
      assert entries[i].edit == f;
    }
  }

  lemma StaleKeepsItsPlace(m: Tree, es: seq<Edit>, e: Edit)
    requires Separate(es) && e in es && !Holds(m, e)
    ensures Lookup(Obj(Inverted(m, es)), e.path) == Lookup(Obj(m), e.path)
  {
    forall f | f in es && Holds(m, f) ensures Incomparable(f.path, e.path) {
      var i, j :| 0 <= i < |es| && 0 <= j < |es| && es[i] == f && es[j] == e;
    }
    OutOfReach(m, es, e.path);
  }

  /** The contract of an undo over arbitrary later writes `m`, for separate edits. */
  ghost predicate UndoContract(m: Tree, entries: seq<Entry>)
    requires Rooted(entries)
  {
    var merged := Inverted(m, Edits(entries));
    && (forall e | e in entries :: e in Conflicts(m, entries) <==> !Holds(m, e.edit))
    && (forall e | e in entries && Holds(m, e.edit) :: Lookup(Obj(merged), e.edit.path) == e.edit.before)
    && (forall e | e in entries && !Holds(m, e.edit) ::
          Lookup(Obj(merged), e.edit.path) == Lookup(Obj(m), e.edit.path))
    && (forall q: Path | (forall e | e in entries :: Incomparable(e.edit.path, q)) ::
          Lookup(Obj(merged), q) == Lookup(Obj(m), q))
  }

  lemma SeparateUndo(m: Tree, entries: seq<Entry>)
    requires Rooted(entries) && Separate(Edits(entries))
    ensures UndoContract(m, entries)
  {
    var es := Edits(entries);
    ConflictsAreStale(m, entries);
    StaleMembers(m, entries);
    EditsMembers(entries);
    forall e | e in entries && Holds(m, e.edit)
      ensures Lookup(Obj(Inverted(m, es)), e.edit.path) == e.edit.before
    {
      FulfilledIsRestored(m, es, e.edit);
    }
    forall e | e in entries && !Holds(m, e.edit)
      ensures Lookup(Obj(Inverted(m, es)), e.edit.path) == Lookup(Obj(m), e.edit.path)
    {
      StaleKeepsItsPlace(m, es, e.edit);
    }
    forall q: Path | forall e | e in entries :: Incomparable(e.edit.path, q)
      ensures Lookup(Obj(Inverted(m, es)), q) == Lookup(Obj(m), q)
    {
      OutOfReach(m, es, q);
    }
  }

  /** Undoing a stored delta after arbitrary later writes `current`. */
  lemma UndoAfterLaterWrites(before: Tree, after: Tree, current: Tree)
    ensures AllValid(StoredDelta(before, after))
    ensures UndoContract(current, Entries(StoredDelta(before, after)))
  {
    StoredEdits(before, after);
    SeparateUndo(current, Entries(StoredDelta(before, after)));
  }

  // ---- order ---------------------------------------------------------------

  lemma {:induction false} UndoPast(m: Tree, e: Edit, es: seq<Edit>)
    requires e.path != [] && forall f | f in es :: f.path != [] && Incomparable(e.path, f.path)
    ensures UndoOne(Inverted(m, es), e) == Inverted(UndoOne(m, e), es)
    decreases |es|
  {
    if es != [] {
      var n := |es| - 1;
      UndoOnesCommute(m, e, es[n]);
      UndoPast(UndoOne(m, es[n]), e, es[..n]);
    }
  }

  lemma UndoFirst(m: Tree, pre: seq<Edit>, e: Edit, post: seq<Edit>)
    requires forall f | f in pre :: f.path != []
    requires e.path != [] && forall f | f in post :: f.path != [] && Incomparable(e.path, f.path)
    ensures forall f | f in pre + post :: f.path != []
    ensures forall f | f in pre + [e] + post :: f.path != []
    ensures Inverted(m, pre + [e] + post) == Inverted(UndoOne(m, e), pre + post)
  {
    InvertedAppend(UndoOne(m, e), pre, post);
    InvertedAppend(m, pre + [e], post);
    InvertedAppend(Inverted(m, post), pre, [e]);
    assert [e][..0] == [];
    UndoPast(m, e, post);
  }

  /** The undone tree does not depend on the order the operations are processed in. */
  lemma {:induction false} OrderIrrelevant(m: Tree, xs: seq<Edit>, ys: seq<Edit>)
    requires Separate(xs) && Separate(ys) && multiset(xs) == multiset(ys)
    ensures Inverted(m, xs) == Inverted(m, ys)
    decreases |xs|
  {
    if xs == [] {
      assert |multiset(ys)| == 0;
    } else {
      var n := |xs| - 1;
      var e := xs[n];
      var j := WhereIs(xs, ys);
      var pre, post := ys[..j], ys[j + 1..];
      assert ys == pre + [e] + post;
      SeparateInit(xs);
      SeparateWithout(ys, j);
      OrderIrrelevant(UndoOne(m, e), xs[..n], pre + post);
      UndoFirst(m, pre, e, post);
    }
  }

  lemma MultisetWithout<T>(s: seq<T>, j: nat)
    requires j < |s|
    ensures multiset(s[..j] + s[j + 1..]) == multiset(s) - multiset{s[j]}
  {
    assert s == s[..j] + ([s[j]] + s[j + 1..]);
    assert multiset(s) == multiset(s[..j]) + (multiset{s[j]} + multiset(s[j + 1..]));
  }

  lemma WhereIs<T>(xs: seq<T>, ys: seq<T>) returns (j: nat)
    requires xs != [] && multiset(xs) == multiset(ys)
    ensures j < |ys| && ys[j] == xs[|xs| - 1]
    ensures multiset(xs[..|xs| - 1]) == multiset(ys[..j] + ys[j + 1..])
  {
    var n := |xs| - 1;
    assert xs[n] in multiset(ys);
    j :| 0 <= j < |ys| && ys[j] == xs[n];
    MultisetWithout(ys, j);
    MultisetWithout(xs, n);
    assert xs[..n] + xs[n + 1..] == xs[..n];
  }

  lemma SeparateWithout(es: seq<Edit>, j: nat)
    requires Separate(es) && j < |es|
    ensures Separate(es[..j] + es[j + 1..])
    ensures forall f | f in es[..j] + es[j + 1..] :: Incomparable(es[j].path, f.path)
  {
    var rest := es[..j] + es[j + 1..];
    forall i | 0 <= i < |rest| ensures rest[i] == es[if i < j then i else i + 1] {}
  }

  // ---- what an undo can cost -----------------------------------------------

  /** A key the compaction removed, whose parent a later write replaced by a plain value. */
  ghost predicate Buried(m: Tree, e: Edit) {
    e.after.None? && exists n :: 0 < n < |e.path| && Plain(m, e.path[..n])
  }

  ghost predicate Plain(m: Tree, q: Path) {
    Lookup(Obj(m), q).Some? && !Lookup(Obj(m), q).value.Obj?
  }

  ghost predicate AncestorsKept(m: Tree, es: seq<Edit>)
    requires Separate(es)
  {
    forall e, n | e in es && 0 < n < |e.path| && Plain(m, e.path[..n]) ::
      Lookup(Obj(Inverted(m, es)), e.path[..n]) == Lookup(Obj(m), e.path[..n])
  }

  lemma {:induction false} LookupBelow(v: Json, path: Path, n: nat)
    requires n < |path|
    ensures Lookup(v, path).Some? ==> Lookup(v, path[..n]).Some? && Lookup(v, path[..n]).value.Obj?
  {
    if n > 0 && v.Obj? && path[0] in v.fields {
      assert path[..n][1..] == path[1..][..n - 1];
      LookupBelow(v.fields[path[0]], path[1..], n - 1);
    }
  }

  /** An undo without conflicts still overwrites a plain value standing where a removed key's parent dict
      was, and that is the only way it loses one at a parent's place. */
  lemma AncestorsKeptUnlessBuried(m: Tree, es: seq<Edit>)
    requires Separate(es)
    requires forall e | e in es :: e.before.Some? || e.after.Some?
    ensures AncestorsKept(m, es) <==> forall e | e in es :: !Buried(m, e)
  {
    if e :| e in es && Buried(m, e) {
      var n :| 0 < n < |e.path| && Plain(m, e.path[..n]);
      LookupBelow(Obj(m), e.path, n);
      FulfilledIsRestored(m, es, e);
      LookupBelow(Obj(Inverted(m, es)), e.path, n);
    } else {
      forall e, n | e in es && 0 < n < |e.path| && Plain(m, e.path[..n])
        ensures Lookup(Obj(Inverted(m, es)), e.path[..n]) == Lookup(Obj(m), e.path[..n])
      {
        var q := e.path[..n];
        forall f | f in es && Holds(m, f) ensures Incomparable(f.path, q) {
          if f.path <= q {
            assert f.path <= e.path;
            SamePath(es, e, f);
          } else if q <= f.path {
            assert f.path[..n] == q;
            LookupBelow(Obj(m), f.path, n);
            assert Buried(m, f);
          }
        }
        OutOfReach(m, es, q);
      }
    }
  }

  /** A plugin empties a dict during compaction and later puts a number in its place: the undo meets no
      conflict and the number is gone. */
  lemma BuriedValueIsLost()
    ensures var es := [Edit(["p", "a"], Some(Int(1)), None)];
            var current: Tree := map["p" := Int(5)];
            && Delta(Obj(map["p" := Obj(map["a" := Int(1)])]), Obj(map["p" := Obj(map[])])) == es
            && AllHold(current, es)
            && Inverted(current, es) == map["p" := Obj(map["a" := Int(1)])]
  {
    var inner, none := Obj(map["a" := Int(1)]), Obj(map[]);
    var before, after := Obj(map["p" := inner]), Obj(map["p" := none]);
    OneKeyDelta(inner, none, "a");
    OneKeyDelta(before, after, "p");
    assert DeltaKey(inner, none, "a") == [Edit(["a"], Some(Int(1)), None)];
    var e := Edit(["p", "a"], Some(Int(1)), None);
    assert ["p"] + ["a"] == e.path;
    assert Under("p", [Edit(["a"], Some(Int(1)), None)]) == [e];
    assert DeltaKey(before, after, "p") == [e];
    var current: Tree := map["p" := Int(5)];
    assert Lookup(Obj(current), e.path) == None;
    assert e.path[1..] == ["a"] && ChildOf(current, "p") == map[];
    assert Assign(map[], ["a"], Some(Int(1))) == map["a" := Int(1)];
    assert [e][..0] == [];
  }

  lemma OneKeyDelta(before: Json, after: Json, k: string)
    requires before.Obj? && after.Obj? && before.fields.Keys + after.fields.Keys == {k}
    ensures Delta(before, after) == DeltaKey(before, after, k)
  {
    var keys := Ordering.Sorted({k});
    Ordering.SortedIsSorted({k});
    assert keys[0] in keys && keys == [k];
    assert keys[..0] == [] && DeltaKeys(before, after, []) == [];
  }

  lemma SamePath(es: seq<Edit>, e: Edit, f: Edit)
    requires Separate(es) && e in es && f in es && f.path <= e.path
    ensures e == f
  {
    var i, j :| 0 <= i < |es| && 0 <= j < |es| && es[i] == e && es[j] == f;
  }

  // ---- later values and the delta that was recorded ------------------------

  lemma {:induction false} LookupConcat(v: Json, p: Path, q: Path)
    ensures Lookup(v, p + q) == (var u := Lookup(v, p); if u.Some? then Lookup(u.value, q) else None)
    decreases |p|
  {
    if p == [] {
      assert p + q == q;
    } else {
      assert (p + q)[0] == p[0] && (p + q)[1..] == p[1..] + q;
      if v.Obj? && p[0] in v.fields { LookupConcat(v.fields[p[0]], p[1..], q); }
    }
  }

  /** An edit found in `after`: its after-value is what stands there, its parents are dicts, and it changes
      something Python can see, without both sides being dicts. */
  ghost predicate Recorded(after: Json, e: Edit) {
    && Lookup(after, e.path) == e.after
    && (forall n | 0 <= n < |e.path| :: Lookup(after, e.path[..n]).Some? && Lookup(after, e.path[..n]).value.Obj?)
    && (e.before.Some? && e.after.Some? ==>
          !PyEq(e.before.value, e.after.value) && !(e.before.value.Obj? && e.after.value.Obj?))
    && (e.before.Some? || e.after.Some?)
  }

  lemma RecordedUnder(after: Json, k: string, e: Edit)
    requires after.Obj? && k in after.fields && Recorded(after.fields[k], e)
    ensures Recorded(after, e.(path := [k] + e.path))
  {
    var path := [k] + e.path;
    assert path[1..] == e.path;
    forall n | 0 <= n < |path| ensures Lookup(after, path[..n]).Some? && Lookup(after, path[..n]).value.Obj? {
      if n > 0 { assert path[..n][0] == k && path[..n][1..] == e.path[..n - 1]; }
    }
  }

  lemma {:induction false} DeltaRecorded(before: Json, after: Json)
    ensures forall e | e in Delta(before, after) :: Recorded(after, e)
    decreases before, 1, 0
  {
    if before.Obj? && after.Obj? {
      Ordering.SortedIsSorted(before.fields.Keys + after.fields.Keys);
      DeltaKeysRecorded(before, after, Ordering.Sorted(before.fields.Keys + after.fields.Keys));
    }
  }

  lemma {:induction false} DeltaKeysRecorded(before: Json, after: Json, keys: seq<string>)
    requires before.Obj? && after.Obj?
    requires forall k | k in keys :: k in before.fields || k in after.fields
    ensures forall e | e in DeltaKeys(before, after, keys) :: Recorded(after, e)
    decreases before, 0, |keys|
  {
    if keys != [] {
      var n := |keys| - 1;
      assert keys[n] in keys;
      DeltaKeysRecorded(before, after, keys[..n]);
      DeltaKeyRecorded(before, after, keys[n]);
    }
  }

  lemma {:induction false} DeltaKeyRecorded(before: Json, after: Json, k: string)
    requires before.Obj? && after.Obj? && (k in before.fields || k in after.fields)
    ensures forall e | e in DeltaKey(before, after, k) :: Recorded(after, e)
    decreases before, 0, 0
  {
    if k in before.fields && k in after.fields {
      var ds := Delta(before.fields[k], after.fields[k]);
      DeltaRecorded(before.fields[k], after.fields[k]);
      forall e | e in Under(k, ds) ensures Recorded(after, e) {
        var i :| 0 <= i < |ds| && Under(k, ds)[i] == e;
        assert ds[i] in ds;
        RecordedUnder(after, k, ds[i]);
      }
    } else {
      var e := DeltaKey(before, after, k)[0];
      assert e.path == [k] && e.path[..0] == [] && e.path[1..] == [];
      assert Lookup(after, e.path) == e.after;
    }
  }

  /** `m` holds a plain value at `q` that was not there when the delta was recorded. */
  ghost predicate WrittenLater(after: Tree, m: Tree, q: Path) {
    Plain(m, q) && Lookup(Obj(m), q) != Lookup(Obj(after), q)
  }

  ghost predicate LaterWritesKept(after: Tree, m: Tree, es: seq<Edit>)
    requires forall e | e in es :: e.path != []
  {
    forall q | WrittenLater(after, m, q) :: Lookup(Obj(Inverted(m, es)), q) == Lookup(Obj(m), q)
  }

  /** An edit that passes for fulfilled although its value was written again: Python cannot tell the two. */
  ghost predicate Punned(m: Tree, e: Edit) {
    Holds(m, e) && Lookup(Obj(m), e.path) != e.after
  }

  lemma DifferentKey(m: Tree, n: Tree) returns (k: string)
    requires m.Keys == n.Keys && m != n
    ensures k in m && m[k] != n[k]
  {
    assert (forall j | j in m :: m[j] == n[j]) ==> m == n;
    k :| k in m && m[k] != n[k];
  }

  /** Two values that Python calls equal differ at a plain one. */
  lemma {:induction false} PunIsPlain(x: Json, y: Json) returns (q: Path)
    requires PyEq(x, y) && x != y
    ensures Lookup(x, q).Some? && !Lookup(x, q).value.Obj? && Lookup(x, q) != Lookup(y, q)
    decreases x
  {
    if x.Obj? && y.Obj? {
      var k := DifferentKey(x.fields, y.fields);
      var r := PunIsPlain(x.fields[k], y.fields[k]);
      q := [k] + r;
      assert q[1..] == r;
    } else {
      q := [];
    }
  }

  /** A punned edit loses the value written later. */
  lemma PunnedIsLost(after: Tree, m: Tree, es: seq<Edit>, e: Edit)
    requires Separate(es) && e in es && Recorded(Obj(after), e) && Punned(m, e)
    ensures !LaterWritesKept(after, m, es)
  {
    var r := PunIsPlain(Lookup(Obj(m), e.path).value, e.after.value);
    var q := e.path + r;
    LookupConcat(Obj(m), e.path, r);
    LookupConcat(Obj(after), e.path, r);
    LookupConcat(Obj(Inverted(m, es)), e.path, r);
    FulfilledIsRestored(m, es, e);
    assert WrittenLater(after, m, q);
    var now := Lookup(Obj(m), e.path).value;
    if e.before.Some? && Lookup(Obj(Inverted(m, es)), q) == Lookup(Obj(m), q) {
      PunnedKeepsNothing(e, now, r);
    }
  }

  lemma PunnedKeepsNothing(e: Edit, now: Json, r: Path)
    requires e.before.Some? && e.after.Some? && PyEq(now, e.after.value)
    requires !PyEq(e.before.value, e.after.value) && !(e.before.value.Obj? && e.after.value.Obj?)
    requires Lookup(now, r).Some?
    ensures Lookup(e.before.value, r) != Lookup(now, r)
  {
    if r == [] {
      if e.before.value == now { assert false; }
    } else {
      assert now.Obj? && e.after.value.Obj? && !e.before.value.Obj?;
    }
  }

  lemma BuriedIsLost(after: Tree, m: Tree, es: seq<Edit>, e: Edit)
    requires Separate(es) && e in es && Recorded(Obj(after), e) && Buried(m, e)
    ensures !LaterWritesKept(after, m, es)
  {
    var n :| 0 < n < |e.path| && Plain(m, e.path[..n]);
    LookupBelow(Obj(m), e.path, n);
    FulfilledIsRestored(m, es, e);
    LookupBelow(Obj(Inverted(m, es)), e.path, n);
    assert WrittenLater(after, m, e.path[..n]);
  }

  /** Below a fulfilled edit that is not punned nothing was written later. */
  lemma NothingNewBelow(after: Tree, m: Tree, e: Edit, q: Path)
    requires Recorded(Obj(after), e) && Holds(m, e) && !Punned(m, e) && e.path <= q
    ensures !WrittenLater(after, m, q)
  {
    var r := q[|e.path|..];
    assert q == e.path + r;
    LookupConcat(Obj(m), e.path, r);
    LookupConcat(Obj(after), e.path, r);
  }

  /** A plain value above a fulfilled edit buries it. */
  lemma PlainAboveBuries(m: Tree, e: Edit, q: Path)
    requires Holds(m, e) && q <= e.path && q != e.path && Plain(m, q)
    ensures Buried(m, e)
  {
    assert e.path[..|q|] == q;
    LookupBelow(Obj(m), e.path, |q|);
  }

  lemma OtherwiseKept(after: Tree, m: Tree, es: seq<Edit>, q: Path)
    requires Separate(es) && (forall e | e in es :: Recorded(Obj(after), e))
    requires forall e | e in es :: !Buried(m, e) && !Punned(m, e)
    requires WrittenLater(after, m, q)
    ensures Lookup(Obj(Inverted(m, es)), q) == Lookup(Obj(m), q)
  {
    forall e | e in es && Holds(m, e) ensures Incomparable(e.path, q) {
      if e.path <= q {
        NothingNewBelow(after, m, e, q);
      } else if q <= e.path {
        PlainAboveBuries(m, e, q);
      }
    }
    OutOfReach(m, es, q);
  }

  /** Undoing a stored delta after arbitrary later writes keeps every plain value written since, wherever it
      stands, exactly when no removed key lies below one and no later value passes for a recorded one. */
  lemma LaterWritesKeptUnless(before: Tree, after: Tree, m: Tree)
    ensures AllValid(StoredDelta(before, after))
    ensures var es := Edits(Entries(StoredDelta(before, after)));
            LaterWritesKept(after, m, es) <==> forall e | e in es :: !Buried(m, e) && !Punned(m, e)
  {
    StoredEdits(before, after);
    DeltaRecorded(Obj(before), Obj(after));
    var es := Delta(Obj(before), Obj(after));
    if e :| e in es && Buried(m, e) {
      BuriedIsLost(after, m, es, e);
    } else if e :| e in es && Punned(m, e) {
      PunnedIsLost(after, m, es, e);
    } else {
      forall q | WrittenLater(after, m, q) ensures Lookup(Obj(Inverted(m, es)), q) == Lookup(Obj(m), q) {
        OtherwiseKept(after, m, es, q);
      }
    }
  }

  // ---- states Python calls equal -------------------------------------------

  ghost predicate SameFound(a: Option<Json>, b: Option<Json>) {
    a.Some? == b.Some? && (a.Some? ==> PyEq(a.value, b.value))
  }

  lemma {:induction false} LookupCongruent(x: Json, y: Json, p: Path)
    requires PyEq(x, y)
    ensures SameFound(Lookup(x, p), Lookup(y, p))
    decreases |p|
  {
    if p != [] && x.Obj? && p[0] in x.fields { LookupCongruent(x.fields[p[0]], y.fields[p[0]], p[1..]); }
  }

  lemma HoldsCongruent(m: Tree, n: Tree, e: Edit)
    requires PyEq(Obj(m), Obj(n))
    ensures Holds(m, e) == Holds(n, e)
  {
    LookupCongruent(Obj(m), Obj(n), e.path);
    var x, y := Lookup(Obj(m), e.path), Lookup(Obj(n), e.path);
    if x.Some? && e.after.Some? {
      if PyEq(x.value, e.after.value) {
        PyEqSymmetric(x.value, y.value);
        PyEqTransitive(y.value, x.value, e.after.value);
      }
      if PyEq(y.value, e.after.value) {
        PyEqTransitive(x.value, y.value, e.after.value);
      }
    }
  }

  lemma SameTrees(a: Tree, b: Tree)
    requires a.Keys == b.Keys && forall k | k in a :: PyEq(a[k], b[k])
    ensures PyEq(Obj(a), Obj(b))
  {
  }

  lemma PutCongruent(m: Tree, n: Tree, k: string, x: Json, y: Json)
    requires PyEq(Obj(m), Obj(n)) && PyEq(x, y)
    ensures PyEq(Obj(m[k := x]), Obj(n[k := y]))
  {
    SameTrees(m[k := x], n[k := y]);
  }

  lemma {:induction false} AssignCongruent(m: Tree, n: Tree, p: Path, v: Option<Json>)
    requires PyEq(Obj(m), Obj(n)) && p != []
    ensures PyEq(Obj(Assign(m, p, v)), Obj(Assign(n, p, v)))
    decreases |p|
  {
    if |p| > 1 {
      var a, b := ChildOf(m, p[0]), ChildOf(n, p[0]);
      ChildCongruent(m, n, p[0]);
      AssignCongruent(a, b, p[1..], v);
      PutCongruent(m, n, p[0], Obj(Assign(a, p[1..], v)), Obj(Assign(b, p[1..], v)));
    } else if v.Some? {
      PyEqReflexive(v.value);
      PutCongruent(m, n, p[0], v.value, v.value);
    } else {
      SameTrees(m - {p[0]}, n - {p[0]});
    }
  }

  lemma ChildCongruent(m: Tree, n: Tree, k: string)
    requires PyEq(Obj(m), Obj(n))
    ensures PyEq(Obj(ChildOf(m, k)), Obj(ChildOf(n, k)))
  {
  }

  /** Undoing edits on states Python calls equal skips the same edits and leaves such states. */
  lemma {:induction false} InvertedCongruent(m: Tree, n: Tree, es: seq<Edit>)
    requires PyEq(Obj(m), Obj(n)) && forall e | e in es :: e.path != []
    ensures PyEq(Obj(Inverted(m, es)), Obj(Inverted(n, es)))
    ensures AllHold(m, es) == AllHold(n, es)
    decreases |es|
  {
    if es != [] {
      var k := |es| - 1;
      HoldsCongruent(m, n, es[k]);
      if Holds(m, es[k]) { AssignCongruent(m, n, es[k].path, es[k].before); }
      InvertedCongruent(UndoOne(m, es[k]), UndoOne(n, es[k]), es[..k]);
    }
  }

  /** The round trip on any state Python calls equal to the later one. */
  lemma DeltaRoundTripUpToEquality(before: Tree, after: Tree, m: Tree)
    requires PyEq(Obj(m), Obj(after))
    ensures AllValid(StoredDelta(before, after))
    ensures var entries := Entries(StoredDelta(before, after));
            && Conflicts(m, entries) == []
            && PyEq(Obj(Inverted(m, Edits(entries))), Obj(before))
  {
    StoredEdits(before, after);
    var entries := Entries(StoredDelta(before, after));
    DeltaRoundTrip(before, after);
    InvertedCongruent(m, after, Edits(entries));
    AllHoldMeansNoConflicts(m, entries);
    AllHoldMeansNoConflicts(after, entries);
    PyEqTransitive(Obj(Inverted(m, Edits(entries))), Obj(Inverted(after, Edits(entries))), Obj(before));
  }
}
