/** Whole runs of beats, undos, compactions and restores. */
module CompactionTheorems {
  import opened Json
  import opened Text
  import opened History
  import opened Sessions
  import opened PluginDelta
  import opened PluginUndo
  import opened UndoTheorems

  /** `compaction_keep_recent_turns` is validated to be positive. */
  type Positive = n: nat | n >= 1 witness 1

  datatype Action =
    | Play(beat: Beat)
    | TakeBack
    | Squeeze(configured: Positive, pressure: bool, summary: Text, plugins: Tree)
    | GiveBack(resolver: Resolver)

  ghost function Step(s: Session, a: Action): Session {
    match a
    case Play(b) => Commit(s, b)
    case TakeBack => Undo(s)
    case Squeeze(c, p, t, ps) => Compact(s, c, p, t, ps)
    case GiveBack(r) => Restore(s, r)
  }

  ghost function Run(s: Session, acts: seq<Action>): Session {
    if acts == [] then s else Step(Run(s, acts[..|acts| - 1]), acts[|acts| - 1])
  }

  // ---- shapes of the steps -------------------------------------------------

  lemma CommitShape(s: Session, b: Beat)
    ensures s.history <= Commit(s, b).history
    ensures Commit(s, b).summary == s.summary && Commit(s, b).stack == s.stack && Commit(s, b).written == s.written
    ensures forall i | |s.history| <= i < |Commit(s, b).history| :: Commit(s, b).history[i].turn == NextTurn(s.history)
  {
    if Speaks(b) {
      CommitAppends(s, b);
    } else {
      SilentBeat(s, b);
    }
  }

  lemma {:induction false} TurnStartBlock(h: Records, turn: int)
    ensures forall i | TurnStart(h, turn) <= i < |h| :: h[i].turn == turn
    ensures TurnStart(h, turn) > 0 ==> h[TurnStart(h, turn) - 1].turn != turn
  {
    if h != [] && h[|h| - 1].turn == turn {
      TurnStartBlock(h[..|h| - 1], turn);
    }
  }

  /** Undo drops exactly the records of the last turn. */
  lemma UndoShape(s: Session)
    requires s.history != []
    ensures var u, h := Undo(s), s.history;
            && u.history < h
            && u.summary == s.summary && u.stack == s.stack && u.written == s.written
            && (forall i | |u.history| <= i < |h| :: h[i].turn == h[|h| - 1].turn)
            && (u.history != [] ==> u.history[|u.history| - 1].turn != h[|h| - 1].turn)
  {
    TurnStartBlock(s.history[..|s.history| - 1], s.history[|s.history| - 1].turn);
  }

  /** What a compaction of `s` that took place leaves. */
  ghost predicate CutFrom(s: Session, s': Session) {
    && s'.stack != [] && s'.stack[..|s'.stack| - 1] == s.stack
    && var c := s'.stack[|s'.stack| - 1];
    && s.history == c.evicted + s'.history
    && s'.history != [] && c.evicted != []
    && s'.history[|s'.history| - 1].turn == c.maxTurn
    && c.afterHistory == HistoryDigest(s'.history) && c.afterSummary == SummaryDigest(s'.summary)
    && c.beforeSummary == s.summary && c.parent == TopId(s.stack)
    && c.pluginDelta == StoredDelta(s.world.pluginState, s'.world.pluginState)
  }

  lemma CompactShape(s: Session, configured: Positive, pressure: bool, summary: Text, plugins: Tree)
    requires Chronological(s.history) && Compacts(s, configured, pressure)
    ensures CutFrom(s, Compact(s, configured, pressure, summary, plugins))
    ensures Compact(s, configured, pressure, summary, plugins).world.pluginState == plugins
  {
    var n := |DistinctTurns(s.history)|;
    var keep := KeepRecent(configured, n, pressure);
    assert 1 <= keep < n;
    WindowSplit(s.history, keep);
    assert DistinctTurns([]) == [];
  }

  /** A compaction takes place exactly when the history holds more turns than the configured window, or
      more than eight under pressure. It evicts a non-empty prefix and keeps the latest turns: as many as
      configured, or the latest half when pressure alone made it happen. The floor of four turns never
      acts, because half of more than eight turns is at least four. */
  lemma CompactionSplits(s: Session, configured: Positive, pressure: bool, summary: Text, plugins: Tree)
    requires Chronological(s.history)
    ensures var d := DistinctTurns(s.history);
            var s' := Compact(s, configured, pressure, summary, plugins);
            if |d| > configured || (pressure && |d| > 8) then
              var keep := if |d| > configured then configured else |d| / 2;
              && s'.stack != []
              && s.history == s'.stack[|s'.stack| - 1].evicted + s'.history
              && s'.stack[|s'.stack| - 1].evicted != []
              && 1 <= keep < |d|
              && DistinctTurns(s'.history) == d[|d| - keep..]
              && (keep != configured ==> 4 <= keep)
            else s' == s
  {
    WindowShrinks(configured, |DistinctTurns(s.history)|, pressure);
    if Compacts(s, configured, pressure) {
      CompactShape(s, configured, pressure, summary, plugins);
      CompactKeeps(s, configured, pressure, summary, plugins);
    }
  }

  lemma WindowShrinks(configured: Positive, turns: nat, pressure: bool)
    ensures var keep := KeepRecent(configured, turns, pressure);
            && (turns > keep <==> turns > configured || (pressure && turns > 8))
            && (turns > keep ==> 1 <= keep == if turns > configured then configured else turns / 2)
            && (turns > keep && keep != configured ==> 4 <= keep)
  {
  }

  lemma CompactKeeps(s: Session, configured: Positive, pressure: bool, summary: Text, plugins: Tree)
    requires Chronological(s.history) && Compacts(s, configured, pressure)
    ensures var d, keep := DistinctTurns(s.history), KeepRecent(configured, |DistinctTurns(s.history)|, pressure);
            1 <= keep < |d|
            && DistinctTurns(Compact(s, configured, pressure, summary, plugins).history) == d[|d| - keep..]
  {
    var d, keep := DistinctTurns(s.history), KeepRecent(configured, |DistinctTurns(s.history)|, pressure);
    WindowShrinks(configured, |d|, pressure);
    CompactHistory(s, configured, pressure, summary, plugins);
    WindowTurns(s.history, |d| - keep);
  }

  lemma CompactHistory(s: Session, configured: Positive, pressure: bool, summary: Text, plugins: Tree)
    requires Compacts(s, configured, pressure)
    ensures var d, keep := DistinctTurns(s.history), KeepRecent(configured, |DistinctTurns(s.history)|, pressure);
            Compact(s, configured, pressure, summary, plugins).history == From(s.history, d[|d| - keep])
  {
  }

  // ---- conservation --------------------------------------------------------

  /** The evicted slices of the active stack, oldest first. */
  function Archive(stack: seq<Checkpoint>): Records {
    if stack == [] then [] else Archive(stack[..|stack| - 1]) + stack[|stack| - 1].evicted
  }

  /** The logical history: beats append to it, undos take from its end, compactions and restores do
      not touch it. */
  ghost function LogStep(log: Records, s: Session, a: Action): Records {
    match a
    case Play(b) => (CommitShape(s, b); log + Commit(s, b).history[|s.history|..])
    case TakeBack =>
      var dropped := |s.history| - |Undo(s).history|;
      if 0 <= dropped <= |log| then log[..|log| - dropped] else log
    case Squeeze(_, _, _, _) => log
    case GiveBack(_) => log
  }

  ghost function RunLog(s: Session, acts: seq<Action>): Records {
    if acts == [] then s.history
    else LogStep(RunLog(s, acts[..|acts| - 1]), Run(s, acts[..|acts| - 1]), acts[|acts| - 1])
  }

  /** Every checkpoint was cut from a chronological history and says where. */
  ghost predicate WellMade(c: Checkpoint) {
    && c.afterHistory.HistoryDigest? && c.afterSummary.SummaryDigest?
    && c.afterHistory.records != []
    && Chronological(c.evicted + c.afterHistory.records)
    && c.afterHistory.records[|c.afterHistory.records| - 1].turn == c.maxTurn
    && AllValid(c.pluginDelta)
  }

  /** Each checkpoint is well made and names the one below it as its parent. */
  ghost predicate SoundStack(stack: seq<Checkpoint>) {
    stack == [] || (WellMade(stack[|stack| - 1]) && ParentIntact(stack) && SoundStack(stack[..|stack| - 1]))
  }

  ghost predicate Sound(s: Session) {
    Chronological(s.history) && SoundStack(s.stack)
  }

  /** Checkpoint ids grow up the stack, and none is above the number of files written. */
  ghost predicate Numbered(stack: seq<Checkpoint>, written: int) {
    stack == [] || (stack[|stack| - 1].id <= written && Numbered(stack[..|stack| - 1], stack[|stack| - 1].id - 1))
  }

  lemma {:induction false} NumberedDistinct(stack: seq<Checkpoint>, written: int, i: nat, j: nat)
    requires Numbered(stack, written) && i < j < |stack|
    ensures stack[i].id < stack[j].id <= written
  {
    var n := |stack| - 1;
    if j < n {
      NumberedDistinct(stack[..n], stack[n].id - 1, i, j);
    } else {
      NumberedBelow(stack[..n], stack[n].id - 1, i);
    }
  }

  lemma {:induction false} NumberedBelow(stack: seq<Checkpoint>, written: int, i: nat)
    requires Numbered(stack, written) && i < |stack|
    ensures stack[i].id <= written
  {
    if i < |stack| - 1 { NumberedBelow(stack[..|stack| - 1], stack[|stack| - 1].id - 1, i); }
  }

  lemma StepNumbered(s: Session, a: Action)
    requires Numbered(s.stack, s.written)
    ensures Numbered(Step(s, a).stack, Step(s, a).written) && Step(s, a).written >= s.written
  {
    match a
    case Play(b) => CommitShape(s, b);
    case TakeBack =>
    case Squeeze(c, p, t, ps) =>
      if Compacts(s, c, p) {
        var s' := Compact(s, c, p, t, ps);
        assert s'.stack[..|s'.stack| - 1] == s.stack;
      }
    case GiveBack(r) =>
  }

  /** In every run from an uncompacted session no two checkpoints of the stack share a file, and the next
      compaction writes a file none of them names. */
  lemma CheckpointsAreFresh(s: Session, acts: seq<Action>, configured: Positive, pressure: bool,
                            summary: Text, plugins: Tree)
    requires s.stack == []
    ensures var now := Run(s, acts);
            && Numbered(now.stack, now.written)
            && (forall i, j | 0 <= i < j < |now.stack| :: now.stack[i].id < now.stack[j].id <= now.written)
            && (Compacts(now, configured, pressure) ==>
                  var after := Compact(now, configured, pressure, summary, plugins);
                  && |after.stack| == |now.stack| + 1
                  && forall i | 0 <= i < |now.stack| :: now.stack[i].id < after.stack[|now.stack|].id)
  {
    RunNumbered(s, acts);
    var now := Run(s, acts);
    forall i, j | 0 <= i < j < |now.stack| ensures now.stack[i].id < now.stack[j].id <= now.written {
      NumberedDistinct(now.stack, now.written, i, j);
    }
    forall i | 0 <= i < |now.stack| ensures now.stack[i].id <= now.written {
      NumberedBelow(now.stack, now.written, i);
    }
  }

  lemma {:induction false} RunNumbered(s: Session, acts: seq<Action>)
    requires s.stack == []
    ensures Numbered(Run(s, acts).stack, Run(s, acts).written)
  {
    if acts != [] {
      RunNumbered(s, acts[..|acts| - 1]);
      StepNumbered(Run(s, acts[..|acts| - 1]), acts[|acts| - 1]);
    }
  }

  lemma ChronologicalJoin(a: Records, b: Records)
    requires Chronological(a) && Chronological(b)
    requires a != [] && b != [] ==> a[|a| - 1].turn <= b[0].turn
    ensures Chronological(a + b)
  {
    var all := a + b;
    forall i, j | 0 <= i < j < |all| ensures all[i].turn <= all[j].turn {
      if i < |a| && |a| <= j {
        assert a[i].turn <= a[|a| - 1].turn;
        assert b[0].turn <= b[j - |a|].turn;
      }
    }
  }

  /** `evicted` goes in front of a history that still begins with the retained window. */
  lemma EvictedFits(c: Checkpoint, h: Records)
    requires WellMade(c) && Chronological(h) && Before(h, c.maxTurn + 1) == c.afterHistory.records
    ensures Chronological(c.evicted + h)
    ensures h == c.afterHistory.records + From(h, c.maxTurn + 1)
    ensures h != [] && h[|h| - 1].turn >= c.maxTurn
  {
    Split(h, c.maxTurn + 1);
    var kept, e := c.afterHistory.records, c.evicted;
    ChronologicalParts(e, kept);
    var whole: Records := e + kept;
    assert e != [] ==> whole[|e| - 1].turn <= whole[|e|].turn;
    assert h[0] == kept[0] && h[|kept| - 1] == kept[|kept| - 1];
    ChronologicalJoin(e, h);
    LastIsLatest(h);
  }

  lemma StepSound(s: Session, a: Action)
    requires Sound(s)
    ensures Sound(Step(s, a))
    ensures Archive(Step(s, a).stack) + Step(s, a).history == LogStep(Archive(s.stack) + s.history, s, a)
  {
    match a
    case Play(b) => PlaySound(s, b);
    case TakeBack =>
      if s.history != [] {
        TakeBackSound(s);
      } else {
        assert Archive(s.stack) + [] == Archive(s.stack);
      }
    case Squeeze(c, p, t, ps) => if Compacts(s, c, p) { SqueezeSound(s, c, p, t, ps); }
    case GiveBack(r) => if Restorable(s, r) { RestoreSound(s, r); }
  }

  lemma PlaySound(s: Session, b: Beat)
    requires Sound(s)
    ensures Sound(Commit(s, b)) && Commit(s, b).stack == s.stack
    ensures Archive(s.stack) + Commit(s, b).history == LogStep(Archive(s.stack) + s.history, s, Play(b))
  {
    CommitShape(s, b);
    AppendChronological(s.history, Commit(s, b).history);
    PutTail(Archive(s.stack), s.history, Commit(s, b).history);
  }

  lemma PutTail(front: Records, rest: Records, whole: Records)
    requires rest <= whole
    ensures front + whole == (front + rest) + whole[|rest|..]
  {
  }

  lemma TakeBackSound(s: Session)
    requires Sound(s) && s.history != []
    ensures Sound(Undo(s)) && Undo(s).stack == s.stack
    ensures Archive(s.stack) + Undo(s).history == LogStep(Archive(s.stack) + s.history, s, TakeBack)
  {
    UndoShape(s);
    PrefixChronological(Undo(s).history, s.history);
    DropTail(Archive(s.stack), s.history, Undo(s).history);
  }

  lemma PrefixChronological(a: Records, b: Records)
    requires a <= b && Chronological(b)
    ensures Chronological(a)
  {
    assert b == a + b[|a|..];
    ChronologicalParts(a, b[|a|..]);
  }

  lemma DropTail(front: Records, whole: Records, rest: Records)
    requires rest <= whole
    ensures (front + whole)[..|front + whole| - (|whole| - |rest|)] == front + rest
  {
  }

  lemma AppendChronological(h: Records, more: Records)
    requires Chronological(h) && h <= more
    requires forall i | |h| <= i < |more| :: more[i].turn == NextTurn(h)
    ensures Chronological(more)
  {
    forall i, j | 0 <= i < j < |more| ensures more[i].turn <= more[j].turn {
      if i < |h| && j >= |h| { assert more[i] == h[i] && h[i].turn <= h[|h| - 1].turn; }
    }
  }

  lemma ChronologicalParts(a: Records, b: Records)
    requires Chronological(a + b)
    ensures Chronological(a) && Chronological(b)
  {
    forall i, j | 0 <= i < j < |a| ensures a[i].turn <= a[j].turn {
      assert (a + b)[i] == a[i] && (a + b)[j] == a[j];
    }
    forall i, j | 0 <= i < j < |b| ensures b[i].turn <= b[j].turn {
      assert (a + b)[|a| + i] == b[i] && (a + b)[|a| + j] == b[j];
    }
  }

  lemma LastIsLatest(h: Records)
    requires Chronological(h) && h != []
    ensures forall i | 0 <= i < |h| :: h[i].turn <= h[|h| - 1].turn
  {
  }

  lemma CutSound(s: Session, s': Session)
    requires Sound(s) && CutFrom(s, s')
    ensures Sound(s') && Archive(s'.stack) + s'.history == Archive(s.stack) + s.history
  {
    var c := s'.stack[|s'.stack| - 1];
    StoredEdits(s.world.pluginState, s'.world.pluginState);
    ChronologicalParts(c.evicted, s'.history);
    assert Archive(s.stack) + c.evicted + s'.history == Archive(s.stack) + (c.evicted + s'.history);
  }

  lemma SqueezeSound(s: Session, configured: Positive, pressure: bool, summary: Text, plugins: Tree)
    requires Sound(s) && Compacts(s, configured, pressure)
    ensures var s' := Compact(s, configured, pressure, summary, plugins);
            Sound(s') && Archive(s'.stack) + s'.history == Archive(s.stack) + s.history
  {
    CompactShape(s, configured, pressure, summary, plugins);
    CutSound(s, Compact(s, configured, pressure, summary, plugins));
  }

  lemma RestoreSound(s: Session, resolver: Resolver)
    requires Sound(s) && Restorable(s, resolver)
    ensures var s' := Restore(s, resolver);
            var c := s.stack[|s.stack| - 1];
            && Sound(s') && s'.history == c.evicted + s.history
            && Archive(s'.stack) + s'.history == Archive(s.stack) + s.history
  {
    var c := s.stack[|s.stack| - 1];
    EvictedFits(c, s.history);
    Split(s.history, c.maxTurn + 1);
    var s' := Restore(s, resolver);
    assert s'.history == c.evicted + s.history;
    assert Archive(s'.stack) + (c.evicted + s.history) == (Archive(s'.stack) + c.evicted) + s.history;
  }

  /** In every run that starts uncompacted, the evicted slices followed by the live history are the
      logical history, and the parent check of a restore never fails. */
  lemma {:induction false} HistoryIsConserved(s: Session, acts: seq<Action>)
    requires s.stack == [] && Chronological(s.history)
    ensures var now := Run(s, acts);
            && Sound(now)
            && Archive(now.stack) + now.history == RunLog(s, acts)
            && (now.stack != [] ==> ParentIntact(now.stack))
  {
    if acts != [] {
      var n := |acts| - 1;
      HistoryIsConserved(s, acts[..n]);
      StepSound(Run(s, acts[..n]), acts[n]);
    }
  }

  // ---- one restore ---------------------------------------------------------

  /** The plugins whose recorded values a later write displaced. */
  ghost function Disputed(before: Tree, after: Tree, current: Tree): set<string> {
    StoredEdits(before, after);
    Grouped(Conflicts(current, Entries(StoredDelta(before, after)))).Keys
  }

  lemma RestoreOfCut(s0: Session, s1: Session, s: Session, resolver: Resolver)
    requires Sound(s0) && CutFrom(s0, s1) && s.stack == s1.stack
    ensures var c := s.stack[|s.stack| - 1];
            && (Restorable(s, resolver) <==>
                  && Before(s.history, c.maxTurn + 1) == s1.history
                  && s.summary == s1.summary
                  && forall p | p in Disputed(s0.world.pluginState, s1.world.pluginState, s.world.pluginState) ::
                       !resolver(p).NoResolver?)
            && (Restorable(s, resolver) ==>
                  && Restore(s, resolver).history == s0.history + From(s.history, c.maxTurn + 1)
                  && Restore(s, resolver).summary == s0.summary
                  && Restore(s, resolver).stack == s0.stack)
  {
    StoredEdits(s0.world.pluginState, s1.world.pluginState);
    var c := s.stack[|s.stack| - 1];
    assert ParentIntact(s.stack);
    assert c.evicted + s1.history + From(s.history, c.maxTurn + 1) == s0.history + From(s.history, c.maxTurn + 1);
  }

  /** A restore of the compaction of `s0`, whatever was done since, as long as that checkpoint is on
      top: it succeeds exactly when the retained window and the summary are untouched and every
      conflicting plugin has a resolver, and then gives back what was evicted and the old summary,
      with the later turns in place. */
  lemma RestoreIsExact(s0: Session, configured: Positive, pressure: bool, summary: Text, plugins: Tree,
                       s: Session, resolver: Resolver)
    requires Sound(s0) && Compacts(s0, configured, pressure)
    requires s.stack == Compact(s0, configured, pressure, summary, plugins).stack
    ensures var s1 := Compact(s0, configured, pressure, summary, plugins);
            && s.stack != []
            && var c := s.stack[|s.stack| - 1];
            && (Restorable(s, resolver) <==>
                  && Before(s.history, c.maxTurn + 1) == s1.history
                  && s.summary == s1.summary
                  && forall p | p in Disputed(s0.world.pluginState, plugins, s.world.pluginState) ::
                       !resolver(p).NoResolver?)
            && (Restorable(s, resolver) ==>
                  && Restore(s, resolver).history == s0.history + From(s.history, c.maxTurn + 1)
                  && Restore(s, resolver).summary == s0.summary
                  && Restore(s, resolver).stack == s0.stack)
  {
    CompactShape(s0, configured, pressure, summary, plugins);
    RestoreOfCut(s0, Compact(s0, configured, pressure, summary, plugins), s, resolver);
  }

  /** If the plugins have not written since, no resolver is needed and their old state is back, exactly
      unless the compaction hook swapped values Python calls equal. */
  lemma RestoreGivesPluginsBack(s0: Session, configured: Positive, pressure: bool, summary: Text, plugins: Tree,
                                s: Session, resolver: Resolver)
    requires Sound(s0) && Compacts(s0, configured, pressure)
    requires var s1 := Compact(s0, configured, pressure, summary, plugins);
             && s.stack == s1.stack && s.stack != [] && s.summary == s1.summary
             && Before(s.history, s.stack[|s.stack| - 1].maxTurn + 1) == s1.history
             && s.world.pluginState == plugins
    ensures Restorable(s, resolver)
    ensures Restore(s, resolver).world.pluginState == s0.world.pluginState <==> NoPun(Obj(s0.world.pluginState), Obj(plugins))
  {
    RestoreIsExact(s0, configured, pressure, summary, plugins, s, resolver);
    DeltaRoundTrip(s0.world.pluginState, plugins);
    CompactShape(s0, configured, pressure, summary, plugins);
    NothingToResolve(plugins, Entries(StoredDelta(s0.world.pluginState, plugins)), resolver);
  }

  lemma NothingToResolve(current: Tree, entries: seq<Entry>, resolver: Resolver)
    requires Rooted(entries) && Conflicts(current, entries) == []
    ensures Grouped(Conflicts(current, entries)).Keys == {}
    ensures Resolved(Inverted(current, Edits(entries)), {}, resolver) == Inverted(current, Edits(entries))
  {
  }

  // ---- unwinding the stack -------------------------------------------------

  /** The newest checkpoint's hashes hold, and it was cut no earlier than the one below it. */
  ghost predicate TopHolds(h: Records, summary: Text, stack: seq<Checkpoint>)
    requires stack != []
  {
    var n := |stack| - 1;
    var c := stack[n];
    && WellMade(c)
    && HistoryDigest(Before(h, c.maxTurn + 1)) == c.afterHistory
    && SummaryDigest(summary) == c.afterSummary
    && (n > 0 ==> stack[n - 1].maxTurn <= c.maxTurn)
  }

  /** Every hash check will hold when its checkpoint's turn comes. */
  ghost predicate Unwindable(h: Records, summary: Text, stack: seq<Checkpoint>)
    decreases |stack|
  {
    stack == [] ||
    var n := |stack| - 1;
    TopHolds(h, summary, stack) && Unwindable(stack[n].evicted + h, stack[n].beforeSummary, stack[..n])
  }

  lemma BeforeExtended(h: Records, more: Records, cutoff: int)
    requires h <= more && forall i | |h| <= i < |more| :: more[i].turn >= cutoff
    ensures Before(more, cutoff) == Before(h, cutoff)
  {
    var tail := more[|h|..];
    assert more == h + tail;
    BeforeAppend(h, tail, cutoff);
    AllFrom(tail, cutoff);
  }

  lemma FrontExtended(e: Records, h: Records, more: Records, turn: int)
    requires h <= more && forall i | |h| <= i < |more| :: more[i].turn > turn
    ensures e + h <= e + more
    ensures forall i | |e + h| <= i < |e + more| :: (e + more)[i].turn > turn
  {
    forall i | |e + h| <= i < |e + more| ensures (e + more)[i].turn > turn {
      assert (e + more)[i] == more[i - |e|];
    }
  }

  /** Records above the newest checkpoint's last turn come and go without touching any check. */
  lemma {:induction false} UnwindableAbove(h: Records, more: Records, summary: Text, stack: seq<Checkpoint>)
    requires h <= more
    requires stack != [] ==> forall i | |h| <= i < |more| :: more[i].turn > stack[|stack| - 1].maxTurn
    ensures Unwindable(h, summary, stack) <==> Unwindable(more, summary, stack)
    decreases |stack|
  {
    if stack != [] {
      var n := |stack| - 1;
      var c := stack[n];
      BeforeExtended(h, more, c.maxTurn + 1);
      assert TopHolds(h, summary, stack) == TopHolds(more, summary, stack);
      if TopHolds(h, summary, stack) {
        FrontExtended(c.evicted, h, more, c.maxTurn);
        UnwindableAbove(c.evicted + h, c.evicted + more, c.beforeSummary, stack[..n]);
      }
    }
  }

  ghost predicate Ready(s: Session) {
    Sound(s) && Unwindable(s.history, s.summary, s.stack)
  }

  /** An undo that stays above the newest checkpoint. */
  predicate StaysAbove(s: Session, a: Action) {
    a.TakeBack? && s.history != [] && s.stack != [] ==>
      s.history[|s.history| - 1].turn > s.stack[|s.stack| - 1].maxTurn
  }

  lemma PlayReady(s: Session, b: Beat)
    requires Ready(s)
    ensures Unwindable(Commit(s, b).history, s.summary, s.stack)
  {
    CommitShape(s, b);
    var h, more := s.history, Commit(s, b).history;
    if s.stack != [] {
      EvictedFits(s.stack[|s.stack| - 1], h);
    }
    UnwindableAbove(h, more, s.summary, s.stack);
  }

  lemma TakeBackReady(s: Session)
    requires Ready(s) && StaysAbove(s, TakeBack) && s.history != []
    ensures Unwindable(Undo(s).history, s.summary, s.stack)
  {
    UndoShape(s);
    UnwindableAbove(Undo(s).history, s.history, s.summary, s.stack);
  }

  lemma AllUpTo(h: Records, turn: int)
    requires Chronological(h) && h != [] && h[|h| - 1].turn <= turn
    ensures Before(h, turn + 1) == h
  {
    LastIsLatest(h);
    AllBefore(h, turn + 1);
  }

  lemma WindowReachesTop(s: Session)
    requires Ready(s) && s.stack != []
    ensures s.history != [] && s.history[|s.history| - 1].turn >= s.stack[|s.stack| - 1].maxTurn
  {
    EvictedFits(s.stack[|s.stack| - 1], s.history);
  }

  /** The checkpoint just cut holds for the session it was cut for. */
  lemma CutTop(s: Session, s': Session)
    requires Ready(s) && CutFrom(s, s')
    ensures TopHolds(s'.history, s'.summary, s'.stack)
  {
    CutSound(s, s');
    CutWhole(s, s');
    CutAboveOlder(s, s');
  }

  /** Its window is the whole live history. */
  lemma CutWhole(s: Session, s': Session)
    requires Sound(s') && CutFrom(s, s')
    ensures Before(s'.history, s'.stack[|s'.stack| - 1].maxTurn + 1) == s'.history
  {
    AllUpTo(s'.history, s'.stack[|s'.stack| - 1].maxTurn);
  }

  lemma CutAboveOlder(s: Session, s': Session)
    requires Ready(s) && CutFrom(s, s')
    ensures var n := |s'.stack| - 1; n > 0 ==> s'.stack[n - 1].maxTurn <= s'.stack[n].maxTurn
  {
    var n := |s'.stack| - 1;
    if n > 0 {
      assert s'.stack[n - 1] == s'.stack[..n][n - 1];
      WindowReachesTop(s);
      LastOfParts(s'.stack[n].evicted, s'.history, s.history);
    }
  }

  lemma LastOfParts(a: Records, b: Records, whole: Records)
    requires b != [] && whole == a + b
    ensures whole[|whole| - 1] == b[|b| - 1]
  {
  }

  lemma CutReady(s: Session, s': Session)
    requires Ready(s) && CutFrom(s, s')
    ensures Unwindable(s'.history, s'.summary, s'.stack)
  {
    CutTop(s, s');
  }

  lemma SqueezeReady(s: Session, configured: Positive, pressure: bool, summary: Text, plugins: Tree)
    requires Ready(s) && Compacts(s, configured, pressure)
    ensures var s' := Compact(s, configured, pressure, summary, plugins);
            Unwindable(s'.history, s'.summary, s'.stack)
  {
    CompactShape(s, configured, pressure, summary, plugins);
    CutReady(s, Compact(s, configured, pressure, summary, plugins));
  }

  lemma StepReady(s: Session, a: Action)
    requires Ready(s) && StaysAbove(s, a)
    ensures Ready(Step(s, a))
  {
    StepSound(s, a);
    StepUnwindable(s, a);
  }

  lemma StepUnwindable(s: Session, a: Action)
    requires Ready(s) && StaysAbove(s, a)
    ensures Unwindable(Step(s, a).history, Step(s, a).summary, Step(s, a).stack)
  {
    match a
    case Play(b) =>
      CommitShape(s, b);
      PlayReady(s, b);
    case TakeBack =>
      if s.history != [] {
        UndoShape(s);
        TakeBackReady(s);
      }
    case Squeeze(configured, p, t, ps) =>
      if Compacts(s, configured, p) { SqueezeReady(s, configured, p, t, ps); }
    case GiveBack(r) =>
      if Restorable(s, r) { GiveBackReady(s, r); }
  }

  lemma GiveBackReady(s: Session, resolver: Resolver)
    requires Ready(s) && Restorable(s, resolver)
    ensures var s' := Restore(s, resolver); Unwindable(s'.history, s'.summary, s'.stack)
  {
    RestoreSound(s, resolver);
    RestorePops(s, resolver);
  }

  ghost function Restores(s: Session, k: nat, resolver: Resolver): Session
    decreases k
  {
    if k == 0 then s else Restores(Restore(s, resolver), k - 1, resolver)
  }

  ghost predicate AlwaysResolves(resolver: Resolver) {
    forall p :: !resolver(p).NoResolver?
  }

  lemma RestoreOne(s: Session, resolver: Resolver)
    requires Ready(s) && s.stack != [] && AlwaysResolves(resolver)
    ensures Restorable(s, resolver) && Ready(Restore(s, resolver))
    ensures var c, s' := s.stack[|s.stack| - 1], Restore(s, resolver);
            && s'.stack == s.stack[..|s.stack| - 1] && s'.summary == c.beforeSummary
            && Archive(s'.stack) + s'.history == Archive(s.stack) + s.history
  {
    TopRestorable(s, resolver);
    RestoreSound(s, resolver);
    RestorePops(s, resolver);
    assert Step(s, GiveBack(resolver)) == Restore(s, resolver);
    StepReady(s, GiveBack(resolver));
  }

  lemma TopRestorable(s: Session, resolver: Resolver)
    requires Ready(s) && s.stack != [] && AlwaysResolves(resolver)
    ensures Restorable(s, resolver)
  {
  }

  lemma RestorePops(s: Session, resolver: Resolver)
    requires Restorable(s, resolver)
    ensures Restore(s, resolver).stack == s.stack[..|s.stack| - 1]
    ensures Restore(s, resolver).summary == s.stack[|s.stack| - 1].beforeSummary
  {
  }

  function FirstSummary(s: Session): Text {
    if s.stack == [] then s.summary else s.stack[0].beforeSummary
  }

  lemma RestoresNext(s: Session, s': Session, resolver: Resolver)
    requires s.stack != [] && s' == Restore(s, resolver)
    requires s'.stack == s.stack[..|s.stack| - 1] && s'.summary == s.stack[|s.stack| - 1].beforeSummary
    ensures Restores(s, |s.stack|, resolver) == Restores(s', |s'.stack|, resolver)
    ensures FirstSummary(s') == FirstSummary(s)
  {
  }

  /** From a ready session, restoring checkpoint after checkpoint never fails and ends uncompacted with
      the whole logical history. */
  lemma {:induction false} UnwindAll(s: Session, resolver: Resolver)
    requires Ready(s) && AlwaysResolves(resolver)
    ensures Restores(s, |s.stack|, resolver).stack == []
    ensures Restores(s, |s.stack|, resolver).history == Archive(s.stack) + s.history
    ensures Restores(s, |s.stack|, resolver).summary == FirstSummary(s)
    decreases |s.stack|
  {
    if s.stack == [] {
      assert [] + s.history == s.history;
    } else {
      var s' := Restore(s, resolver);
      RestoreOne(s, resolver);
      UnwindAll(s', resolver);
      RestoresNext(s, s', resolver);
    }
  }

  /** No undo of the run reaches into the window of the newest checkpoint of its moment. */
  ghost predicate AllAbove(s: Session, acts: seq<Action>) {
    acts == [] || (AllAbove(s, acts[..|acts| - 1]) && StaysAbove(Run(s, acts[..|acts| - 1]), acts[|acts| - 1]))
  }

  lemma {:induction false} FirstSummaryKept(s: Session, acts: seq<Action>)
    requires s.stack == [] && Chronological(s.history) && AllAbove(s, acts)
    ensures Ready(Run(s, acts))
    ensures FirstSummary(Run(s, acts)) == s.summary
  {
    if acts != [] {
      var n := |acts| - 1;
      FirstSummaryKept(s, acts[..n]);
      var now := Run(s, acts[..n]);
      StepReady(now, acts[n]);
      match acts[n]
      case Play(b) => CommitShape(now, b);
      case TakeBack =>
      case Squeeze(c, p, t, ps) => if Compacts(now, c, p) { CompactShape(now, c, p, t, ps); }
      case GiveBack(_) =>
    }
  }

  /** Any run of beats, undos, compactions and restores whose undos stay above the newest checkpoint can
      be unwound completely: the full history, the original summary, an empty stack. */
  lemma UnwindingIsComplete(s: Session, acts: seq<Action>, resolver: Resolver)
    requires s.stack == [] && Chronological(s.history) && AllAbove(s, acts) && AlwaysResolves(resolver)
    ensures var now := Run(s, acts);
            var back := Restores(now, |now.stack|, resolver);
            back.stack == [] && back.history == RunLog(s, acts) && back.summary == s.summary
  {
    FirstSummaryKept(s, acts);
    HistoryIsConserved(s, acts);
    UnwindAll(Run(s, acts), resolver);
  }

  // ---- plugin state across the stack ---------------------------------------

  /** `after` is the plugin state, up to Python equality, that the newest checkpoint was cut with, its delta
      leads from the state the one below was cut with, and so on down to `first`. */
  ghost predicate Chained(after: Tree, stack: seq<Checkpoint>, first: Tree)
    decreases |stack|
  {
    if stack == [] then PyEq(Obj(after), Obj(first))
    else
      var top, below := stack[|stack| - 1], stack[..|stack| - 1];
      exists before, cut :: Link(after, top, before, cut) && Chained(before, below, first)
  }

  ghost predicate Link(after: Tree, c: Checkpoint, before: Tree, cut: Tree) {
    c.pluginDelta == StoredDelta(before, cut) && PyEq(Obj(after), Obj(cut))
  }

  lemma ChainedEqual(a: Tree, b: Tree, stack: seq<Checkpoint>, first: Tree)
    requires Chained(a, stack, first) && PyEq(Obj(b), Obj(a))
    ensures Chained(b, stack, first)
  {
    if stack == [] {
      PyEqTransitive(Obj(b), Obj(a), Obj(first));
    } else {
      var before, cut :| Link(a, stack[|stack| - 1], before, cut) && Chained(before, stack[..|stack| - 1], first);
      PyEqTransitive(Obj(b), Obj(a), Obj(cut));
      assert Link(b, stack[|stack| - 1], before, cut);
    }
  }

  /** A restore meets no conflict, whatever the resolvers, and ends in the plugin state before the cut. */
  lemma RestoreToLink(s: Session, before: Tree, cut: Tree, resolver: Resolver)
    requires s.stack != [] && Link(s.world.pluginState, s.stack[|s.stack| - 1], before, cut)
    requires ParentIntact(s.stack) && RecordedIntact(s, s.stack[|s.stack| - 1])
    ensures Restorable(s, resolver)
    ensures PyEq(Obj(Restore(s, resolver).world.pluginState), Obj(before))
  {
    var entries := Entries(s.stack[|s.stack| - 1].pluginDelta);
    DeltaRoundTripUpToEquality(before, cut, s.world.pluginState);
    NothingToResolve(s.world.pluginState, entries, resolver);
    assert Restore(s, resolver).world.pluginState == Inverted(s.world.pluginState, Edits(entries));
  }

  /** A restore in a chained session succeeds and leaves a chained one. */
  lemma RestoreChained(s: Session, first: Tree, resolver: Resolver)
    requires s.stack != [] && Chained(s.world.pluginState, s.stack, first)
    requires ParentIntact(s.stack) && RecordedIntact(s, s.stack[|s.stack| - 1])
    ensures Restorable(s, resolver)
    ensures Chained(Restore(s, resolver).world.pluginState, Restore(s, resolver).stack, first)
  {
    var c := s.stack[|s.stack| - 1];
    var before, cut :| Link(s.world.pluginState, c, before, cut) && Chained(before, s.stack[..|s.stack| - 1], first);
    RestoreToLink(s, before, cut, resolver);
    RestorePops(s, resolver);
    ChainedEqual(before, Restore(s, resolver).world.pluginState, s.stack[..|s.stack| - 1], first);
  }

  /** The step writes no plugin state, up to Python equality; what a compaction's own hook does to it is
      recorded, and a restore takes it back. */
  ghost predicate Quiet(s: Session, a: Action) {
    a.Play? || a.TakeBack? ==> PyEq(Obj(Step(s, a).world.pluginState), Obj(s.world.pluginState))
  }

  ghost predicate AllQuiet(s: Session, acts: seq<Action>) {
    acts == [] || (AllQuiet(s, acts[..|acts| - 1]) && Quiet(Run(s, acts[..|acts| - 1]), acts[|acts| - 1]))
  }

  lemma CutChained(s: Session, s': Session, first: Tree)
    requires CutFrom(s, s') && Chained(s.world.pluginState, s.stack, first)
    ensures Chained(s'.world.pluginState, s'.stack, first)
  {
    PyEqReflexive(Obj(s'.world.pluginState));
    assert Link(s'.world.pluginState, s'.stack[|s'.stack| - 1], s.world.pluginState, s'.world.pluginState);
  }

  lemma StepChained(s: Session, a: Action, first: Tree)
    requires Sound(s) && Chained(s.world.pluginState, s.stack, first) && Quiet(s, a)
    ensures Chained(Step(s, a).world.pluginState, Step(s, a).stack, first)
  {
    match a
    case Play(b) =>
      CommitShape(s, b);
      ChainedEqual(s.world.pluginState, Step(s, a).world.pluginState, s.stack, first);
    case TakeBack =>
      if s.history != [] { UndoShape(s); }
      ChainedEqual(s.world.pluginState, Step(s, a).world.pluginState, s.stack, first);
    case Squeeze(c, p, t, ps) =>
      if Compacts(s, c, p) {
        CompactShape(s, c, p, t, ps);
        CutChained(s, Compact(s, c, p, t, ps), first);
      }
    case GiveBack(r) =>
      if Restorable(s, r) { RestoreChained(s, first, r); }
  }

  lemma {:induction false} RunChained(s: Session, acts: seq<Action>)
    requires s.stack == [] && Chronological(s.history) && AllQuiet(s, acts)
    ensures Chained(Run(s, acts).world.pluginState, Run(s, acts).stack, s.world.pluginState)
  {
    if acts == [] {
      PyEqReflexive(Obj(s.world.pluginState));
    } else {
      var n := |acts| - 1;
      RunChained(s, acts[..n]);
      HistoryIsConserved(s, acts[..n]);
      StepChained(Run(s, acts[..n]), acts[n], s.world.pluginState);
    }
  }

  /** One restore of a session whose hash checks and plugin states are all in order. */
  lemma RestoreQuietly(s: Session, first: Tree, resolver: Resolver)
    requires Ready(s) && s.stack != [] && Chained(s.world.pluginState, s.stack, first)
    ensures Restorable(s, resolver) && Ready(Restore(s, resolver))
    ensures var c, s' := s.stack[|s.stack| - 1], Restore(s, resolver);
            && s'.stack == s.stack[..|s.stack| - 1] && s'.summary == c.beforeSummary
            && Archive(s'.stack) + s'.history == Archive(s.stack) + s.history
            && Chained(s'.world.pluginState, s'.stack, first)
  {
    TopIntact(s);
    RestoreChained(s, first, resolver);
    RestoreSound(s, resolver);
    RestorePops(s, resolver);
    assert Step(s, GiveBack(resolver)) == Restore(s, resolver);
    StepReady(s, GiveBack(resolver));
  }

  lemma TopIntact(s: Session)
    requires Ready(s) && s.stack != []
    ensures ParentIntact(s.stack) && RecordedIntact(s, s.stack[|s.stack| - 1])
  {
  }

  lemma {:induction false} UnwindQuietly(s: Session, first: Tree, resolver: Resolver)
    requires Ready(s) && Chained(s.world.pluginState, s.stack, first)
    ensures var back := Restores(s, |s.stack|, resolver);
            && back.stack == [] && back.history == Archive(s.stack) + s.history && back.summary == FirstSummary(s)
            && PyEq(Obj(back.world.pluginState), Obj(first))
    decreases |s.stack|
  {
    if s.stack == [] {
      assert [] + s.history == s.history;
    } else {
      var s' := Restore(s, resolver);
      RestoreQuietly(s, first, resolver);
      UnwindQuietly(s', first, resolver);
      RestoresNext(s, s', resolver);
    }
  }

  /** When no plugin wrote outside compaction, unwinding the whole stack needs no resolver at all: history and
      summary are back, and the plugin state is one Python calls equal to the original, however many
      checkpoints lie in between. */
  lemma QuietUnwindingIsComplete(s: Session, acts: seq<Action>, resolver: Resolver)
    requires s.stack == [] && Chronological(s.history) && AllAbove(s, acts) && AllQuiet(s, acts)
    ensures var now := Run(s, acts);
            var back := Restores(now, |now.stack|, resolver);
            && back.stack == [] && back.history == RunLog(s, acts) && back.summary == s.summary
            && PyEq(Obj(back.world.pluginState), Obj(s.world.pluginState))
  {
    FirstSummaryKept(s, acts);
    HistoryIsConserved(s, acts);
    RunChained(s, acts);
    UnwindQuietly(Run(s, acts), s.world.pluginState, resolver);
  }

  // ---- undo against the window ---------------------------------------------

  /** Once the newest record belongs to the window, the window is all there is; dropping records of
      it changes what the next restore hashes. */
  lemma ShorterWindowDiffers(h: Records, u: Records, maxTurn: int)
    requires Chronological(h) && h != [] && h[|h| - 1].turn <= maxTurn && u < h
    ensures Before(u, maxTurn + 1) != Before(h, maxTurn + 1)
  {
    AllUpTo(h, maxTurn);
    LastIsLatest(h);
    assert forall i | 0 <= i < |u| :: u[i] == h[i];
    AllBefore(u, maxTurn + 1);
  }

  /** The condition is exact: an undo that reaches into the window makes the next restore fail. */
  lemma UndoIntoWindowBlocks(s: Session, resolver: Resolver)
    requires Ready(s) && s.stack != [] && s.history != []
    ensures Unwindable(Undo(s).history, Undo(s).summary, Undo(s).stack) <==> StaysAbove(s, TakeBack)
    ensures !StaysAbove(s, TakeBack) ==> !Restorable(Undo(s), resolver)
  {
    UndoShape(s);
    if StaysAbove(s, TakeBack) {
      TakeBackReady(s);
    } else {
      ShorterWindowDiffers(s.history, Undo(s).history, s.stack[|s.stack| - 1].maxTurn);
    }
  }

  /** Undoing the whole retained window leaves nothing to undo while older turns are archived, and the
      next beat starts counting at 1 again. */
  lemma EmptyWindowRestartsCount(s: Session, b: Beat)
    requires s.history == [] && s.stack != [] && Speaks(b)
    ensures Undo(s) == s
    ensures forall r | r in Commit(s, b).history :: r.turn == 1
  {
    CommitShape(s, b);
  }
}
