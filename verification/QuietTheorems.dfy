/** When undoing a beat leaves the plugin state alone, and when it brings back what a compaction hook wrote. */
module QuietTheorems {
  import opened Wrappers
  import opened Json
  import opened Text
  import opened Model
  import opened History
  import opened Sessions
  import opened PluginDelta
  import opened UndoTheorems
  import opened CompactionTheorems

  // ---- what snapshots hold of the plugins ----------------------------------

  ghost predicate SnapshotsHold(h: Records, plugins: Tree) {
    forall i | 0 <= i < |h| :: h[i].snapshot.pluginState == plugins
  }

  lemma {:induction false} SpokenHold(w: World, step: int, stages: seq<Stage>)
    ensures SnapshotsHold(Spoken(w, step, stages), w.pluginState)
    decreases |stages|
  {
    if stages != [] {
      var first := if stages[0].Say? then [Recorded(w, step, stages[0].line)] else [];
      var rest := Spoken(Onstage(w, stages[0]), step, stages[1..]);
      SpokenHold(Onstage(w, stages[0]), step, stages[1..]);
      assert SnapshotsHold(rest, w.pluginState);
      assert Spoken(w, step, stages) == first + rest;
    }
  }

  lemma {:induction false} StampsHold(h: Records, tick: int, roteiro: Option<Roteiro>, plugins: Tree)
    requires SnapshotsHold(h, plugins)
    ensures SnapshotsHold(StampAll(h, tick, roteiro), plugins)
  {
    if h != [] { StampsHold(h[..|h| - 1], tick, roteiro, plugins); }
  }

  /** Every record of a beat, whatever its stages, holds the plugin state the beat began with. */
  lemma BeatHolds(s: Session, b: Beat)
    ensures SnapshotsHold(BeatRecords(s, b), s.world.pluginState)
  {
    var stages := Says(b.player) + b.stages;
    var step := NextTurn(s.history);
    SpokenHold(s.world, step, stages);
    StampsHold(Spoken(s.world, step, stages), s.world.tick, s.world.roteiro, s.world.pluginState);
  }

  // ---- a memory that fits --------------------------------------------------

  /** The records above the newest checkpoint hold the present plugin state, up to Python equality. */
  ghost predicate Current(h: Records, now: Tree, stack: seq<Checkpoint>) {
    forall i | 0 <= i < |h| && (stack == [] || h[i].turn > stack[|stack| - 1].maxTurn) ::
      PyEq(Obj(h[i].snapshot.pluginState), Obj(now))
  }

  /** And so did those a checkpoint was cut from, down to the oldest. */
  ghost predicate Remembered(h: Records, now: Tree, stack: seq<Checkpoint>)
    decreases |stack|
  {
    && Current(h, now, stack)
    && (stack == [] ||
        var c, below := stack[|stack| - 1], stack[..|stack| - 1];
        exists before, cut :: Link(now, c, before, cut) && Remembered(CutFromHistory(c), before, below))
  }

  /** The live history a checkpoint was cut from. */
  function CutFromHistory(c: Checkpoint): Records {
    if c.afterHistory.HistoryDigest? then c.evicted + c.afterHistory.records else []
  }

  lemma CurrentEqual(h: Records, was: Tree, now: Tree, stack: seq<Checkpoint>)
    requires Current(h, was, stack) && PyEq(Obj(now), Obj(was))
    ensures Current(h, now, stack)
  {
    PyEqSymmetric(Obj(now), Obj(was));
    forall i | 0 <= i < |h| && (stack == [] || h[i].turn > stack[|stack| - 1].maxTurn)
      ensures PyEq(Obj(h[i].snapshot.pluginState), Obj(now))
    {
      PyEqTransitive(Obj(h[i].snapshot.pluginState), Obj(was), Obj(now));
    }
  }

  lemma CurrentMoves(h: Records, was: Tree, h': Records, now: Tree, stack: seq<Checkpoint>)
    requires Remembered(h, was, stack) && PyEq(Obj(now), Obj(was)) && Current(h', now, stack)
    ensures Remembered(h', now, stack)
  {
    if stack != [] {
      var c, below := stack[|stack| - 1], stack[..|stack| - 1];
      var before, cut :| Link(was, c, before, cut) && Remembered(CutFromHistory(c), before, below);
      PyEqTransitive(Obj(now), Obj(was), Obj(cut));
      assert Link(now, c, before, cut);
    }
  }

  /** What a step may do to keep the memory: beats write no plugin state, undos stay above the newest
      checkpoint, and a checkpoint is restored only when no later turn is left. */
  ghost predicate Gentle(s: Session, a: Action) {
    && StaysAbove(s, a)
    && (a.Play? ==> Quiet(s, a))
    && (a.GiveBack? && s.stack != [] ==> forall r | r in s.history :: r.turn <= s.stack[|s.stack| - 1].maxTurn)
  }

  ghost predicate AllGentle(s: Session, acts: seq<Action>) {
    acts == [] || (AllGentle(s, acts[..|acts| - 1]) && Gentle(Run(s, acts[..|acts| - 1]), acts[|acts| - 1]))
  }

  ghost predicate Fits(s: Session) {
    Sound(s) && Remembered(s.history, s.world.pluginState, s.stack)
  }

  lemma PlayCurrent(s: Session, b: Beat)
    requires Current(s.history, s.world.pluginState, s.stack) && Quiet(s, Play(b))
    ensures Current(Commit(s, b).history, Commit(s, b).world.pluginState, s.stack)
  {
    var s' := Commit(s, b);
    var was, now := s.world.pluginState, s'.world.pluginState;
    PyEqSymmetric(Obj(now), Obj(was));
    CurrentEqual(s.history, was, now, s.stack);
    BeatHolds(s, b);
    if Speaks(b) {
      CommitAppends(s, b);
      assert forall i | |s.history| <= i < |s'.history| :: s'.history[i] == BeatRecords(s, b)[i - |s.history|];
    } else {
      SilentBeat(s, b);
    }
  }

  lemma PlayFits(s: Session, b: Beat)
    requires Fits(s) && Quiet(s, Play(b))
    ensures Fits(Commit(s, b))
  {
    StepSound(s, Play(b));
    CommitShape(s, b);
    PlayCurrent(s, b);
    CurrentMoves(s.history, s.world.pluginState, Commit(s, b).history, Commit(s, b).world.pluginState, s.stack);
  }

  /** An undo reads the plugin state in a record of the turn it takes back. */
  lemma UndoReads(s: Session)
    requires s.history != []
    ensures var u := Undo(s);
            && u.history < s.history && u.stack == s.stack
            && s.history[|u.history|].turn == s.history[|s.history| - 1].turn
            && u.world.pluginState == s.history[|u.history|].snapshot.pluginState
  {
    UndoShape(s);
  }

  lemma ShorterCurrent(h: Records, u: Records, now: Tree, stack: seq<Checkpoint>)
    requires Current(h, now, stack) && u <= h
    ensures Current(u, now, stack)
  {
    assert forall i | 0 <= i < |u| :: u[i] == h[i];
  }

  /** An undo above the newest checkpoint writes no plugin state: the snapshot it puts back holds the present
      one. */
  lemma TakeBackFits(s: Session)
    requires Fits(s) && StaysAbove(s, TakeBack)
    ensures Quiet(s, TakeBack) && Fits(Undo(s))
  {
    PyEqReflexive(Obj(s.world.pluginState));
    if s.history != [] {
      UndoReads(s);
      StepSound(s, TakeBack);
      var u := Undo(s);
      ShorterCurrent(s.history, u.history, s.world.pluginState, s.stack);
      CurrentEqual(u.history, s.world.pluginState, u.world.pluginState, s.stack);
      CurrentMoves(s.history, s.world.pluginState, u.history, u.world.pluginState, s.stack);
    }
  }

  lemma NoneAbove(h: Records, now: Tree, stack: seq<Checkpoint>)
    requires Chronological(h) && h != [] && stack != [] && h[|h| - 1].turn == stack[|stack| - 1].maxTurn
    ensures Current(h, now, stack)
  {
    LastIsLatest(h);
  }

  lemma CutFits(s: Session, s': Session)
    requires Fits(s) && CutFrom(s, s')
    ensures Fits(s')
  {
    CutSound(s, s');
    NoneAbove(s'.history, s'.world.pluginState, s'.stack);
    assert CutFromHistory(s'.stack[|s'.stack| - 1]) == s.history;
    PyEqReflexive(Obj(s'.world.pluginState));
    assert Link(s'.world.pluginState, s'.stack[|s'.stack| - 1], s.world.pluginState, s'.world.pluginState);
  }

  lemma SqueezeFits(s: Session, configured: Positive, pressure: bool, summary: Text, plugins: Tree)
    requires Fits(s)
    ensures Fits(Compact(s, configured, pressure, summary, plugins))
  {
    if Compacts(s, configured, pressure) {
      CompactShape(s, configured, pressure, summary, plugins);
      CutFits(s, Compact(s, configured, pressure, summary, plugins));
    }
  }

  lemma NothingLater(h: Records, turn: int)
    requires forall r | r in h :: r.turn <= turn
    ensures Before(h, turn + 1) == h
  {
    forall i | 0 <= i < |h| ensures h[i].turn < turn + 1 { assert h[i] in h; }
    AllBefore(h, turn + 1);
  }

  /** Where no later turn is left, the live history is the window the checkpoint kept. */
  lemma WholeWindow(h: Records, c: Checkpoint)
    requires HistoryDigest(Before(h, c.maxTurn + 1)) == c.afterHistory
    requires forall r | r in h :: r.turn <= c.maxTurn
    ensures CutFromHistory(c) == c.evicted + h
  {
    NothingLater(h, c.maxTurn);
    assert c.afterHistory.records == h;
  }

  lemma RestoredHistory(s: Session, resolver: Resolver)
    requires Sound(s) && Restorable(s, resolver)
    requires forall r | r in s.history :: r.turn <= s.stack[|s.stack| - 1].maxTurn
    ensures Restore(s, resolver).history == CutFromHistory(s.stack[|s.stack| - 1])
    ensures Restore(s, resolver).stack == s.stack[..|s.stack| - 1] && Sound(Restore(s, resolver))
  {
    WholeWindow(s.history, s.stack[|s.stack| - 1]);
    RestoreSound(s, resolver);
    RestorePops(s, resolver);
  }

  lemma LinkOf(h: Records, now: Tree, stack: seq<Checkpoint>) returns (before: Tree, cut: Tree)
    requires stack != [] && Remembered(h, now, stack)
    ensures Link(now, stack[|stack| - 1], before, cut)
    ensures Remembered(CutFromHistory(stack[|stack| - 1]), before, stack[..|stack| - 1])
  {
    before, cut :| Link(now, stack[|stack| - 1], before, cut)
                   && Remembered(CutFromHistory(stack[|stack| - 1]), before, stack[..|stack| - 1]);
  }

  lemma GiveBackFits(s: Session, resolver: Resolver)
    requires Fits(s) && Restorable(s, resolver)
    requires forall r | r in s.history :: r.turn <= s.stack[|s.stack| - 1].maxTurn
    ensures Fits(Restore(s, resolver))
  {
    var below := s.stack[..|s.stack| - 1];
    var s' := Restore(s, resolver);
    var before, cut := LinkOf(s.history, s.world.pluginState, s.stack);
    RestoredHistory(s, resolver);
    assert PyEq(Obj(s'.world.pluginState), Obj(before)) by { RestoreToLink(s, before, cut, resolver); }
    CurrentEqual(s'.history, before, s'.world.pluginState, below);
    CurrentMoves(s'.history, before, s'.history, s'.world.pluginState, below);
  }

  lemma GentleStep(s: Session, a: Action)
    requires Fits(s) && Gentle(s, a)
    ensures Quiet(s, a) && Fits(Step(s, a))
  {
    match a
    case Play(b) => PlayFits(s, b);
    case TakeBack => TakeBackFits(s);
    case Squeeze(c, p, t, ps) => SqueezeFits(s, c, p, t, ps);
    case GiveBack(r) => if Restorable(s, r) { GiveBackFits(s, r); }
  }

  /** Quiet beats make quiet undos, over every run whose undos stay above the newest checkpoint and whose
      restores leave no later turn behind. */
  lemma {:induction false} GentleIsQuiet(s: Session, acts: seq<Action>)
    requires s.stack == [] && Chronological(s.history) && Current(s.history, s.world.pluginState, [])
    requires AllGentle(s, acts)
    ensures AllAbove(s, acts) && AllQuiet(s, acts) && Fits(Run(s, acts))
  {
    if acts != [] {
      var n := |acts| - 1;
      GentleIsQuiet(s, acts[..n]);
      GentleStep(Run(s, acts[..n]), acts[n]);
    }
  }

  /** Such a run unwinds without any resolver to the first history and summary and to a plugin state Python
      calls equal to the first, although only beats, never undos, were asked to be quiet. */
  lemma GentleUnwindingIsComplete(s: Session, acts: seq<Action>, resolver: Resolver)
    requires s.stack == [] && Chronological(s.history) && Current(s.history, s.world.pluginState, [])
    requires AllGentle(s, acts)
    ensures var now := Run(s, acts);
            var back := Restores(now, |now.stack|, resolver);
            && back.stack == [] && back.history == RunLog(s, acts) && back.summary == s.summary
            && PyEq(Obj(back.world.pluginState), Obj(s.world.pluginState))
  {
    GentleIsQuiet(s, acts);
    QuietUnwindingIsComplete(s, acts, resolver);
  }

  // ---- a later turn left behind --------------------------------------------

  lemma RunSnoc(s: Session, acts: seq<Action>, a: Action)
    ensures Run(s, acts + [a]) == Step(Run(s, acts), a)
    ensures AllAbove(s, acts + [a]) <==> AllAbove(s, acts) && StaysAbove(Run(s, acts), a)
    ensures AllQuiet(s, acts + [a]) <==> AllQuiet(s, acts) && Quiet(Run(s, acts), a)
  {
    assert (acts + [a])[..|acts + [a]| - 1] == acts;
  }

  lemma RunOne(s: Session, a: Action)
    ensures Run(s, [a]) == Step(s, a)
    ensures AllAbove(s, [a]) <==> StaysAbove(s, a)
    ensures AllQuiet(s, [a]) <==> Quiet(s, a)
  {
    assert [] + [a] == [a];
    RunSnoc(s, [], a);
  }

  /** A turn played after a compaction and undone after its restore. */
  function LateUndo(cut: Action, b: Beat, resolver: Resolver): seq<Action> {
    [cut] + [Play(b)] + [GiveBack(resolver)] + [TakeBack]
  }

  /** A cut session played on can be restored, whatever the resolvers. */
  lemma RestorableAfterBeat(s: Session, s1: Session, b: Beat, resolver: Resolver)
    requires CutFrom(s, s1) && Ready(s1) && Speaks(b) && Quiet(s1, Play(b))
    ensures var s2 := Commit(s1, b);
            && s2.stack == s1.stack && s2.history == s1.history + BeatRecords(s1, b)
            && Sound(s2) && Restorable(s2, resolver)
            && PyEq(Obj(Restore(s2, resolver).world.pluginState), Obj(s.world.pluginState))
  {
    var s2 := Commit(s1, b);
    CommitAppends(s1, b);
    StepReady(s1, Play(b));
    TopIntact(s2);
    assert Link(s2.world.pluginState, s2.stack[|s2.stack| - 1], s.world.pluginState, s1.world.pluginState);
    RestoreToLink(s2, s.world.pluginState, s1.world.pluginState, resolver);
  }

  lemma EvictedFirst(s: Session, s1: Session, more: Records)
    requires CutFrom(s, s1)
    ensures s1.stack[|s1.stack| - 1].evicted + (s1.history + more) == s.history + more
    ensures s1.stack[..|s1.stack| - 1] == s.stack
  {
    var e := s1.stack[|s1.stack| - 1].evicted;
    assert e + (s1.history + more) == (e + s1.history) + more;
  }

  /** Its restore has the old history with the new turn behind it. */
  lemma RestoredAfterBeat(s: Session, s1: Session, s2: Session, more: Records, resolver: Resolver)
    requires CutFrom(s, s1) && s2.stack == s1.stack && s2.history == s1.history + more
    requires Sound(s2) && Restorable(s2, resolver)
    ensures Restore(s2, resolver).history == s.history + more && Restore(s2, resolver).stack == s.stack
  {
    EvictedFirst(s, s1, more);
    RestoreSound(s2, resolver);
    RestorePops(s2, resolver);
  }

  lemma UndoneLate(s: Session, s1: Session, s3: Session, b: Beat)
    requires CutFrom(s, s1) && Speaks(b) && s3.history == s.history + BeatRecords(s1, b)
    ensures Undo(s3).history == s.history && Undo(s3).stack == s3.stack
    ensures Undo(s3).world.pluginState == s1.world.pluginState
  {
    CommitAppends(s1, b);
    LastOfParts(s1.stack[|s1.stack| - 1].evicted, s1.history, s.history);
    UndoBlock(s3, s.history, BeatRecords(s1, b), NextTurn(s1.history));
  }

  lemma LateSteps(s: Session, cut: Action, s1: Session, b: Beat, resolver: Resolver, s3: Session)
    requires cut.Squeeze? && s1 == Step(s, cut) && s3 == Restore(Commit(s1, b), resolver) && s3.stack == []
    ensures Run(s, LateUndo(cut, b, resolver)) == Undo(s3)
    ensures AllAbove(s, LateUndo(cut, b, resolver))
    ensures AllQuiet(s, LateUndo(cut, b, resolver)) <==> Quiet(s1, Play(b)) && Quiet(s3, TakeBack)
  {
    var a1 := [cut];
    var a2 := a1 + [Play(b)];
    var a3 := a2 + [GiveBack(resolver)];
    RunOne(s, cut);
    RunSnoc(s, a1, Play(b));
    RunSnoc(s, a2, GiveBack(resolver));
    RunSnoc(s, a3, TakeBack);
    assert Run(s, a3) == s3;
  }

  /** What the restore and the undo leave of a cut session played on. */
  lemma LateEnd(s: Session, s1: Session, b: Beat, resolver: Resolver)
    requires CutFrom(s, s1) && Ready(s1) && Speaks(b) && Quiet(s1, Play(b))
    ensures var s3 := Restore(Commit(s1, b), resolver);
            && s3.stack == s.stack && PyEq(Obj(s3.world.pluginState), Obj(s.world.pluginState))
            && Undo(s3).stack == s.stack && Undo(s3).history == s.history
            && Undo(s3).world.pluginState == s1.world.pluginState
  {
    var s2 := Commit(s1, b);
    RestorableAfterBeat(s, s1, b, resolver);
    RestoredAfterBeat(s, s1, s2, BeatRecords(s1, b), resolver);
    UndoneLate(s, s1, Restore(s2, resolver), b);
  }

  lemma LateRun(s: Session, cut: Action, s1: Session, b: Beat, resolver: Resolver)
    requires s.stack == [] && cut.Squeeze? && Step(s, cut) == s1
    requires CutFrom(s, s1) && Ready(s1) && Speaks(b) && Quiet(s1, Play(b))
    ensures var acts := LateUndo(cut, b, resolver);
            var now := Run(s, acts);
            && AllAbove(s, acts)
            && now.stack == [] && now.history == s.history && now.world.pluginState == s1.world.pluginState
            && (AllQuiet(s, acts) <==> PyEq(Obj(s1.world.pluginState), Obj(s.world.pluginState)))
  {
    var s3 := Restore(Commit(s1, b), resolver);
    LateEnd(s, s1, b, resolver);
    LateSteps(s, cut, s1, b, resolver, s3);
    LateIsQuiet(s1.world.pluginState, s3.world.pluginState, s.world.pluginState);
  }

  /** Such an undo writes plugin state: records and stack are back as they were before the compaction, and the
      plugin state is the one its hook had written and the restore had taken back. All beats of the run are
      quiet, so the run is quiet if and only if the hook was. */
  lemma LateUndoBringsHookBack(s: Session, configured: Positive, pressure: bool, summary: Text, plugins: Tree,
                               b: Beat, resolver: Resolver)
    requires s.stack == [] && Chronological(s.history) && Compacts(s, configured, pressure)
    requires Speaks(b) && PyEq(Obj(b.after.pluginState), Obj(plugins))
    ensures var acts := LateUndo(Squeeze(configured, pressure, summary, plugins), b, resolver);
            var now := Run(s, acts);
            && AllAbove(s, acts)
            && now.stack == [] && now.history == s.history && now.world.pluginState == plugins
            && (AllQuiet(s, acts) <==> PyEq(Obj(plugins), Obj(s.world.pluginState)))
  {
    LateCut(s, configured, pressure, summary, plugins, b);
    LateRun(s, Squeeze(configured, pressure, summary, plugins), Compact(s, configured, pressure, summary, plugins), b, resolver);
  }

  lemma LateCut(s: Session, configured: Positive, pressure: bool, summary: Text, plugins: Tree, b: Beat)
    requires s.stack == [] && Chronological(s.history) && Compacts(s, configured, pressure)
    requires Speaks(b) && PyEq(Obj(b.after.pluginState), Obj(plugins))
    ensures var s1 := Compact(s, configured, pressure, summary, plugins);
            CutFrom(s, s1) && Ready(s1) && s1.world.pluginState == plugins && Quiet(s1, Play(b))
  {
    var s1 := Compact(s, configured, pressure, summary, plugins);
    CompactShape(s, configured, pressure, summary, plugins);
    CutSound(s, s1);
    CutReady(s, s1);
    CommitAppends(s1, b);
  }

  lemma LateIsQuiet(hook: Tree, restored: Tree, first: Tree)
    requires PyEq(Obj(restored), Obj(first))
    ensures PyEq(Obj(hook), Obj(restored)) <==> PyEq(Obj(hook), Obj(first))
  {
    PyEqSymmetric(Obj(restored), Obj(first));
    if PyEq(Obj(hook), Obj(restored)) { PyEqTransitive(Obj(hook), Obj(restored), Obj(first)); }
    if PyEq(Obj(hook), Obj(first)) { PyEqTransitive(Obj(hook), Obj(first), Obj(restored)); }
  }

  // ---- exactly which undos write plugin state ------------------------------

  /** What the hooks have left: the plugin state a run began with, then for each checkpoint of the stack the one
      its hook returned. */
  ghost function Hooks(s: Session, acts: seq<Action>): (r: seq<Tree>)
    ensures r != []
  {
    if acts == [] then [s.world.pluginState]
    else
      var before, hooks := Run(s, acts[..|acts| - 1]), Hooks(s, acts[..|acts| - 1]);
      match acts[|acts| - 1]
      case Squeeze(c, p, _, plugins) => if Compacts(before, c, p) then hooks + [plugins] else hooks
      case GiveBack(r) => if Restorable(before, r) && |hooks| > 1 then hooks[..|hooks| - 1] else hooks
      case _ => hooks
  }

  function Newest(hooks: seq<Tree>): Tree
    requires hooks != []
  {
    hooks[|hooks| - 1]
  }

  function Repeat(plugins: Tree, n: nat): seq<Tree> {
    seq(n, _ => plugins)
  }

  /** For each record of the logical history what the newest hook had left when it was played; for those the run
      began with, what their own snapshots hold. */
  ghost function Under(s: Session, acts: seq<Action>): seq<Tree> {
    if acts == [] then seq(|s.history|, i requires 0 <= i < |s.history| => s.history[i].snapshot.pluginState)
    else
      var earlier := acts[..|acts| - 1];
      var before, under := Run(s, earlier), Under(s, earlier);
      match acts[|acts| - 1]
      case Play(b) =>
        CommitShape(before, b);
        under + Repeat(Newest(Hooks(s, earlier)), |Commit(before, b).history| - |before.history|)
      case TakeBack =>
        var dropped := |before.history| - |Undo(before).history|;
        if 0 <= dropped <= |under| then under[..|under| - dropped] else under
      case _ => under
  }

  /** Undoing the last turn goes back to a record played under hooks that left what the newest ones now leave. */
  ghost predicate Matches(now: Session, hooks: seq<Tree>, under: seq<Tree>)
    requires hooks != []
  {
    var k := |Archive(now.stack)| + |Undo(now).history|;
    now.history != [] && k < |under| ==> PyEq(Obj(under[k]), Obj(Newest(hooks)))
  }

  ghost predicate AllMatch(s: Session, acts: seq<Action>) {
    acts == [] ||
    (AllMatch(s, acts[..|acts| - 1]) && (acts[|acts| - 1].TakeBack? ==>
         Matches(Run(s, acts[..|acts| - 1]), Hooks(s, acts[..|acts| - 1]), Under(s, acts[..|acts| - 1]))))
  }

  ghost predicate BeatsQuiet(s: Session, acts: seq<Action>) {
    acts == [] ||
    (BeatsQuiet(s, acts[..|acts| - 1]) &&
     (acts[|acts| - 1].Play? ==> Quiet(Run(s, acts[..|acts| - 1]), acts[|acts| - 1])))
  }

  // ---- the account the hooks give ------------------------------------------

  /** The delta of the checkpoint leads from what the hook below it left to what its own hook left. */
  ghost predicate Spans(c: Checkpoint, below: Tree, own: Tree) {
    exists before, cut ::
      c.pluginDelta == StoredDelta(before, cut) && PyEq(Obj(before), Obj(below)) && PyEq(Obj(cut), Obj(own))
  }

  ghost predicate StackTells(now: Tree, stack: seq<Checkpoint>, hooks: seq<Tree>) {
    && |hooks| == |stack| + 1 && PyEq(Obj(now), Obj(Newest(hooks)))
    && forall i | 0 <= i < |stack| :: Spans(stack[i], hooks[i], hooks[i + 1])
  }

  ghost predicate LogTells(log: Records, under: seq<Tree>) {
    && |log| == |under|
    && forall i | 0 <= i < |log| :: PyEq(Obj(log[i].snapshot.pluginState), Obj(under[i]))
  }

  ghost predicate Tells(s: Session, hooks: seq<Tree>, under: seq<Tree>) {
    && Sound(s) && StackTells(s.world.pluginState, s.stack, hooks) && LogTells(Archive(s.stack) + s.history, under)
  }

  lemma StackTellsEqual(was: Tree, now: Tree, stack: seq<Checkpoint>, hooks: seq<Tree>)
    requires StackTells(was, stack, hooks) && PyEq(Obj(now), Obj(was))
    ensures StackTells(now, stack, hooks)
  {
    PyEqTransitive(Obj(now), Obj(was), Obj(Newest(hooks)));
  }

  lemma LogTellsMore(log: Records, under: seq<Tree>, added: Records, plugins: Tree, own: Tree)
    requires LogTells(log, under) && SnapshotsHold(added, plugins) && PyEq(Obj(plugins), Obj(own))
    ensures LogTells(log + added, under + Repeat(own, |added|))
  {
    var all, more := log + added, under + Repeat(own, |added|);
    forall i | 0 <= i < |all| ensures PyEq(Obj(all[i].snapshot.pluginState), Obj(more[i])) {
      if i < |log| {
        assert all[i] == log[i] && more[i] == under[i];
      } else {
        assert all[i] == added[i - |log|] && more[i] == own;
      }
    }
  }

  lemma PlayTells(s: Session, b: Beat, hooks: seq<Tree>, under: seq<Tree>)
    requires Tells(s, hooks, under) && hooks != [] && Quiet(s, Play(b))
    ensures var n := |Commit(s, b).history| - |s.history|;
            n >= 0 && Tells(Commit(s, b), hooks, under + Repeat(Newest(hooks), n))
  {
    StepSound(s, Play(b));
    CommitShape(s, b);
    BeatHolds(s, b);
    if Speaks(b) { CommitAppends(s, b); } else { SilentBeat(s, b); }
    assert Commit(s, b).history == s.history + BeatRecords(s, b);
    LogTellsMore(Archive(s.stack) + s.history, under, BeatRecords(s, b), s.world.pluginState, Newest(hooks));
    assert Archive(s.stack) + (s.history + BeatRecords(s, b)) == (Archive(s.stack) + s.history) + BeatRecords(s, b);
    StackTellsEqual(s.world.pluginState, Commit(s, b).world.pluginState, s.stack, hooks);
  }

  lemma LogTellsLess(log: Records, under: seq<Tree>, n: nat)
    requires LogTells(log, under) && n <= |log|
    ensures LogTells(log[..n], under[..n])
  {
  }

  /** What an undo puts back is what the hooks had left when its turn was played. */
  lemma UndoneUnder(s: Session, under: seq<Tree>) returns (k: nat)
    requires LogTells(Archive(s.stack) + s.history, under) && s.history != []
    ensures k == |Archive(s.stack)| + |Undo(s).history| < |under|
    ensures PyEq(Obj(Undo(s).world.pluginState), Obj(under[k]))
  {
    UndoReads(s);
    k := |Archive(s.stack)| + |Undo(s).history|;
    assert (Archive(s.stack) + s.history)[k] == s.history[|Undo(s).history|];
  }

  lemma NothingUndone(s: Session)
    requires s.history == []
    ensures Quiet(s, TakeBack)
  {
    PyEqReflexive(Obj(s.world.pluginState));
  }

  /** An undo is quiet exactly when the record it goes back to was played under hooks that left what the newest
      ones now leave. */
  lemma UndoQuietIff(s: Session, hooks: seq<Tree>, under: seq<Tree>)
    requires LogTells(Archive(s.stack) + s.history, under)
    requires hooks != [] && PyEq(Obj(s.world.pluginState), Obj(Newest(hooks)))
    ensures Quiet(s, TakeBack) <==> Matches(s, hooks, under)
  {
    if s.history == [] {
      NothingUndone(s);
    } else {
      var k := UndoneUnder(s, under);
      assert Step(s, TakeBack) == Undo(s);
      SameClass(Undo(s).world.pluginState, under[k], s.world.pluginState, Newest(hooks));
    }
  }

  lemma SameClass(a: Tree, a': Tree, b: Tree, b': Tree)
    requires PyEq(Obj(a), Obj(a')) && PyEq(Obj(b), Obj(b'))
    ensures PyEq(Obj(a), Obj(b)) <==> PyEq(Obj(a'), Obj(b'))
  {
    PyEqSymmetric(Obj(a), Obj(a'));
    PyEqSymmetric(Obj(b), Obj(b'));
    if PyEq(Obj(a), Obj(b)) {
      PyEqTransitive(Obj(a'), Obj(a), Obj(b));
      PyEqTransitive(Obj(a'), Obj(b), Obj(b'));
    }
    if PyEq(Obj(a'), Obj(b')) {
      PyEqTransitive(Obj(a), Obj(a'), Obj(b'));
      PyEqTransitive(Obj(a), Obj(b'), Obj(b));
    }
  }

  lemma TakeBackTells(s: Session, hooks: seq<Tree>, under: seq<Tree>)
    requires Tells(s, hooks, under) && Quiet(s, TakeBack) && s.history != []
    ensures var n := |s.history| - |Undo(s).history|;
            0 <= n <= |under| && Tells(Undo(s), hooks, under[..|under| - n])
  {
    UndoReads(s);
    StepSound(s, TakeBack);
    var h, u := s.history, Undo(s).history;
    LogTellsLess(Archive(s.stack) + h, under, |Archive(s.stack)| + |u|);
    assert (Archive(s.stack) + h)[..|Archive(s.stack)| + |u|] == Archive(s.stack) + u;
    StackTellsEqual(s.world.pluginState, Undo(s).world.pluginState, s.stack, hooks);
  }

  lemma CutTells(s: Session, s': Session, hooks: seq<Tree>, under: seq<Tree>)
    requires Tells(s, hooks, under) && CutFrom(s, s')
    ensures Tells(s', hooks + [s'.world.pluginState], under)
  {
    CutSound(s, s');
    var plugins := s'.world.pluginState;
    var more := hooks + [plugins];
    PyEqReflexive(Obj(plugins));
    var n := |s.stack|;
    assert s'.stack[..n] == s.stack;
    assert Spans(s'.stack[n], more[n], more[n + 1]);
    forall i | 0 <= i < |s'.stack| ensures Spans(s'.stack[i], more[i], more[i + 1]) {
      if i < n { assert s'.stack[i] == s.stack[i] && more[i] == hooks[i] && more[i + 1] == hooks[i + 1]; }
    }
  }

  lemma SpanOf(c: Checkpoint, below: Tree, own: Tree) returns (before: Tree, cut: Tree)
    requires Spans(c, below, own)
    ensures c.pluginDelta == StoredDelta(before, cut) && PyEq(Obj(before), Obj(below)) && PyEq(Obj(cut), Obj(own))
  {
    before, cut :| c.pluginDelta == StoredDelta(before, cut) && PyEq(Obj(before), Obj(below)) && PyEq(Obj(cut), Obj(own));
  }

  lemma RestoresBelow(s: Session, resolver: Resolver, below: Tree, own: Tree)
    requires Restorable(s, resolver) && Spans(s.stack[|s.stack| - 1], below, own) && PyEq(Obj(s.world.pluginState), Obj(own))
    ensures PyEq(Obj(Restore(s, resolver).world.pluginState), Obj(below))
  {
    var before, cut := SpanOf(s.stack[|s.stack| - 1], below, own);
    PyEqSymmetric(Obj(cut), Obj(own));
    PyEqTransitive(Obj(s.world.pluginState), Obj(own), Obj(cut));
    RestoreToLink(s, before, cut, resolver);
    PyEqTransitive(Obj(Restore(s, resolver).world.pluginState), Obj(before), Obj(below));
  }

  lemma StackTellsLess(now: Tree, stack: seq<Checkpoint>, hooks: seq<Tree>, back: Tree)
    requires StackTells(now, stack, hooks) && stack != [] && PyEq(Obj(back), Obj(hooks[|stack| - 1]))
    ensures StackTells(back, stack[..|stack| - 1], hooks[..|hooks| - 1])
  {
  }

  lemma RestoreTells(s: Session, resolver: Resolver, hooks: seq<Tree>, under: seq<Tree>)
    requires Tells(s, hooks, under) && Restorable(s, resolver)
    ensures |hooks| > 1 && Tells(Restore(s, resolver), hooks[..|hooks| - 1], under)
  {
    var n := |s.stack| - 1;
    RestoresBelow(s, resolver, hooks[n], hooks[n + 1]);
    RestoreSound(s, resolver);
    RestorePops(s, resolver);
    StackTellsLess(s.world.pluginState, s.stack, hooks, Restore(s, resolver).world.pluginState);
  }

  lemma BeginTells(s: Session)
    requires s.stack == [] && Chronological(s.history)
    ensures Tells(s, Hooks(s, []), Under(s, []))
  {
    PyEqReflexive(Obj(s.world.pluginState));
    var log := Archive(s.stack) + s.history;
    assert log == s.history;
    forall i | 0 <= i < |log| ensures PyEq(Obj(log[i].snapshot.pluginState), Obj(Under(s, [])[i])) {
      PyEqReflexive(Obj(log[i].snapshot.pluginState));
    }
  }

  /** What one quiet step does to the account. */
  lemma StepTells(s: Session, acts: seq<Action>, a: Action)
    requires Tells(Run(s, acts), Hooks(s, acts), Under(s, acts)) && Quiet(Run(s, acts), a)
    ensures Tells(Run(s, acts + [a]), Hooks(s, acts + [a]), Under(s, acts + [a]))
  {
    var now, more := Run(s, acts), acts + [a];
    assert more[..|more| - 1] == acts && more[|more| - 1] == a;
    match a
    case Play(b) => PlayTells(now, b, Hooks(s, acts), Under(s, acts));
    case TakeBack =>
      if now.history != [] {
        TakeBackTells(now, Hooks(s, acts), Under(s, acts));
      } else {
        assert Under(s, acts)[..|Under(s, acts)|] == Under(s, acts);
      }
    case Squeeze(c, p, t, plugins) =>
      if Compacts(now, c, p) {
        CompactShape(now, c, p, t, plugins);
        CutTells(now, Compact(now, c, p, t, plugins), Hooks(s, acts), Under(s, acts));
      }
    case GiveBack(r) =>
      if Restorable(now, r) { RestoreTells(now, r, Hooks(s, acts), Under(s, acts)); }
  }

  lemma {:induction false} QuietTells(s: Session, acts: seq<Action>)
    requires s.stack == [] && Chronological(s.history) && AllQuiet(s, acts)
    ensures Tells(Run(s, acts), Hooks(s, acts), Under(s, acts))
  {
    if acts == [] {
      BeginTells(s);
    } else {
      var n := |acts| - 1;
      assert acts == acts[..n] + [acts[n]];
      QuietTells(s, acts[..n]);
      StepTells(s, acts[..n], acts[n]);
    }
  }

  /** Over every run of a session whose beats write no plugin state, wherever its undos reach and whatever its
      restores leave behind: no undo writes any if and only if each takes back a turn played when the newest hook
      had left what it leaves now. So an undo is quiet exactly if the hooks of the checkpoints restored since
      its turn was played had no effect taken together. */
  lemma {:induction false} UndosQuietIff(s: Session, acts: seq<Action>)
    requires s.stack == [] && Chronological(s.history) && BeatsQuiet(s, acts)
    ensures AllQuiet(s, acts) <==> AllMatch(s, acts)
  {
    if acts != [] {
      var n := |acts| - 1;
      UndosQuietIff(s, acts[..n]);
      if AllQuiet(s, acts[..n]) {
        QuietTells(s, acts[..n]);
        UndoQuietIff(Run(s, acts[..n]), Hooks(s, acts[..n]), Under(s, acts[..n]));
      }
    }
  }
}
