/** What a restore leaves in the plugin state when later writes are in the way, plugin by plugin. */
module RestoreTheorems {
  import opened Json
  import opened Sessions
  import opened PluginDelta
  import opened PluginUndo

  /** The change is no longer in place: its after-value is gone, another one, or back. */
  ghost predicate Dislodged(e: Edit, current: Tree) {
    var found := Lookup(Obj(current), e.path);
    match e.after
    case None => found.Some?
    case Some(v) => found.None? || !PyEq(found.value, v)
  }

  /** Some recorded change of the plugin is no longer in place. */
  ghost predicate Displaced(delta: seq<Edit>, current: Tree, plugin: string) {
    exists e | e in delta && e.path != [] && e.path[0] == plugin :: Dislodged(e, current)
  }

  ghost function Recorded(before: Tree, cut: Tree): seq<Edit> {
    Delta(Obj(before), Obj(cut))
  }

  lemma DislodgedEdit(current: Tree, e: Edit)
    ensures Dislodged(e, current) <==> !Holds(current, e)
  {
  }

  /** The entries of a stored delta are its changes. */
  lemma StoredEntries(before: Tree, cut: Tree) returns (entries: seq<Entry>)
    ensures AllValid(StoredDelta(before, cut)) && entries == Entries(StoredDelta(before, cut)) && Rooted(entries)
    ensures forall e | e in entries :: e.edit in Recorded(before, cut)
    ensures forall f | f in Recorded(before, cut) :: exists e :: e in entries && e.edit == f
  {
    StoredEdits(before, cut);
    entries := Entries(StoredDelta(before, cut));
    EditsMembers(entries);
    assert Edits(entries) == Recorded(before, cut);
  }

  lemma GroupedPlugins(entries: seq<Entry>, plugin: string)
    requires Rooted(entries)
    ensures plugin in Grouped(entries) <==> exists e :: e in entries && e.edit.path[0] == plugin
  {
  }

  /** The plugins whose resolvers a restore asks are exactly the displaced ones. */
  lemma AskedIsDisplaced(before: Tree, cut: Tree, current: Tree, plugin: string)
    ensures AllValid(StoredDelta(before, cut))
    ensures plugin in Grouped(Conflicts(current, Entries(StoredDelta(before, cut)))) <==>
            Displaced(Recorded(before, cut), current, plugin)
  {
    UndoAfterLaterWrites(before, cut, current);
    var entries := StoredEntries(before, cut);
    GroupedPlugins(Conflicts(current, entries), plugin);
    AskedEntries(current, entries, Recorded(before, cut), plugin);
  }

  lemma AskedEntries(current: Tree, entries: seq<Entry>, delta: seq<Edit>, plugin: string)
    requires Rooted(entries) && forall e | e in entries :: e in Conflicts(current, entries) <==> !Holds(current, e.edit)
    requires forall e | e in entries :: e.edit in delta
    requires forall f | f in delta :: exists e :: e in entries && e.edit == f
    ensures (exists e :: e in Conflicts(current, entries) && e.edit.path[0] == plugin) <==> Displaced(delta, current, plugin)
  {
    if e :| e in Conflicts(current, entries) && e.edit.path[0] == plugin {
      ConflictIsEntry(current, entries, e);
      DislodgedEdit(current, e.edit);
      assert e.edit in delta;
    }
    if f :| f in delta && f.path != [] && f.path[0] == plugin && Dislodged(f, current) {
      var e :| e in entries && e.edit == f;
      DislodgedEdit(current, f);
      assert e in Conflicts(current, entries);
    }
  }

  lemma {:induction false} ConflictIsEntry(m: Tree, entries: seq<Entry>, e: Entry)
    requires Rooted(entries) && e in Conflicts(m, entries)
    ensures e in entries
    decreases |entries|
  {
    var n := |entries| - 1;
    var last := entries[n];
    if e != last || Holds(m, last.edit) {
      ConflictIsEntry(UndoOne(m, last.edit), entries[..n], e);
    }
  }

  /** The newest checkpoint's delta was recorded from `before` to `cut`. */
  ghost predicate CutBetween(s: Session, before: Tree, cut: Tree) {
    s.stack != [] && s.stack[|s.stack| - 1].pluginDelta == StoredDelta(before, cut)
  }

  /** A displaced plugin is settled by its resolver alone: the namespace holds exactly the answer, or is gone. */
  lemma ResolverDecides(s: Session, resolver: Resolver, before: Tree, cut: Tree, plugin: string)
    requires Restorable(s, resolver) && CutBetween(s, before, cut)
    requires Displaced(Recorded(before, cut), s.world.pluginState, plugin)
    ensures var now := Restore(s, resolver).world.pluginState;
            match resolver(plugin)
            case NoResolver => false
            case Dropped => plugin !in now
            case Replaced(v) => plugin in now && now[plugin] == v
  {
    AskedIsDisplaced(before, cut, s.world.pluginState, plugin);
  }

  lemma RestorableIffAnswered(s: Session, resolver: Resolver, before: Tree, cut: Tree)
    requires CutBetween(s, before, cut)
    ensures Restorable(s, resolver) <==>
      && ParentIntact(s.stack) && RecordedIntact(s, s.stack[|s.stack| - 1])
      && forall p | Displaced(Recorded(before, cut), s.world.pluginState, p) :: !resolver(p).NoResolver?
  {
    StoredEdits(before, cut);
    forall p ensures p in Grouped(Conflicts(s.world.pluginState, Entries(StoredDelta(before, cut)))) <==>
                     Displaced(Recorded(before, cut), s.world.pluginState, p)
    {
      AskedIsDisplaced(before, cut, s.world.pluginState, p);
    }
  }

  /** The other plugins keep what the undo gives them. */
  lemma Undisputed(s: Session, resolver: Resolver, before: Tree, cut: Tree, q: Path)
    requires Restorable(s, resolver) && CutBetween(s, before, cut) && q != []
    requires !Displaced(Recorded(before, cut), s.world.pluginState, q[0])
    ensures AllValid(StoredDelta(before, cut))
    ensures Lookup(Obj(Restore(s, resolver).world.pluginState), q)
         == Lookup(Obj(Inverted(s.world.pluginState, Edits(Entries(StoredDelta(before, cut))))), q)
  {
    AskedIsDisplaced(before, cut, s.world.pluginState, q[0]);
  }

  /** In the namespace of a plugin nothing of which is displaced, every recorded place has its value from before
      the compaction, and every place no recorded one contains or lies in keeps what was written since. */
  lemma OthersAreUndone(s: Session, resolver: Resolver, before: Tree, cut: Tree, q: Path)
    requires Restorable(s, resolver) && CutBetween(s, before, cut) && q != []
    requires !Displaced(Recorded(before, cut), s.world.pluginState, q[0])
    ensures var now := Obj(Restore(s, resolver).world.pluginState);
            && (forall e | e in Recorded(before, cut) && e.path == q :: Lookup(now, q) == e.before)
            && ((forall e | e in Recorded(before, cut) :: Incomparable(e.path, q)) ==>
                  Lookup(now, q) == Lookup(Obj(s.world.pluginState), q))
  {
    Undisputed(s, resolver, before, cut, q);
    UndoAfterLaterWrites(before, cut, s.world.pluginState);
    var entries := StoredEntries(before, cut);
    forall e | e in Recorded(before, cut) && e.path == q
      ensures Lookup(Obj(Restore(s, resolver).world.pluginState), q) == e.before
    {
      var f :| f in entries && f.edit == e;
      DislodgedEdit(s.world.pluginState, e);
    }
  }

  /** Nothing but plugin state, history, summary and stack changes. */
  lemma RestoreLeavesTheScene(s: Session, resolver: Resolver)
    ensures var w, now := s.world, Restore(s, resolver).world;
            && now.scene == w.scene && now.moods == w.moods && now.tick == w.tick && now.roteiro == w.roteiro
            && now.ledgers == w.ledgers && now.dispositions == w.dispositions
  {
  }
}
