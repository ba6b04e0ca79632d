/** The story clock inside a session: its beats, undos and compactions are steps of the clock, so what the clock
    guarantees holds in every run of a session. */
module StorySessions {
  import opened Wrappers
  import opened Text
  import opened Model
  import opened History
  import opened StoryClock
  import opened StoryTheorems
  import opened StoryUndo
  import opened StoryHeard
  import opened StoryBounds
  import Sessions
  import UndoTheorems
  import PluginDelta
  import CompactionTheorems

  // ---- maintenance reads no snapshot ---------------------------------------

  predicate SameWords(g: Records, h: Records) {
    && |g| == |h|
    && forall i | 0 <= i < |g| ::
         g[i].turn == h[i].turn && g[i].kind == h[i].kind && g[i].speaker == h[i].speaker && g[i].content == h[i].content
  }

  lemma {:induction false} WhereAgrees(xs: seq<string>, f: string -> bool, g: string -> bool)
    requires forall x | x in xs :: f(x) == g(x)
    ensures Where(xs, f) == Where(xs, g)
  {
    if xs != [] { WhereAgrees(xs[1..], f, g); }
  }

  lemma SameTurns(g: Records, h: Records, since: int)
    requires SameWords(g, h)
    ensures Turns(g, since) <= Turns(h, since)
  {
    forall t | t in Turns(g, since) ensures t in Turns(h, since) {
      var i :| 0 <= i < |g| && Counts(g[i], since) && g[i].turn == t;
      assert Counts(h[i], since) && h[i].turn == t;
    }
  }

  lemma SameEngagedTurns(g: Records, h: Records, since: int, beat: RoteiroBeat, controlled: string, matched: Matcher)
    requires SameWords(g, h)
    ensures EngagedTurns(g, since, beat, controlled, matched) <= EngagedTurns(h, since, beat, controlled, matched)
  {
    forall t | t in EngagedTurns(g, since, beat, controlled, matched)
      ensures t in EngagedTurns(h, since, beat, controlled, matched)
    {
      var i :| 0 <= i < |g| && Counts(g[i], since) && Engages(g[i], beat, controlled, matched) && g[i].turn == t;
      assert Counts(h[i], since) && Engages(h[i], beat, controlled, matched) && h[i].turn == t;
    }
  }

  lemma SameHits(r: Roteiro, g: Records, h: Records, controlled: string, matched: Matcher)
    requires SameWords(g, h)
    ensures forall a :: AnchorHit(r, g, a, matched) ==> AnchorHit(r, h, a, matched)
    ensures forall a :: ActorHit(r, g, a, controlled) ==> ActorHit(r, h, a, controlled)
  {
    forall a | AnchorHit(r, g, a, matched) ensures AnchorHit(r, h, a, matched) {
      if a !in r.anchorsSeen {
        var i :| 0 <= i < |g| && Counts(g[i], r.beatStartedTurn) && matched(a, g[i].content);
        assert Counts(h[i], r.beatStartedTurn) && matched(a, h[i].content);
      }
    }
    forall a | ActorHit(r, g, a, controlled) ensures ActorHit(r, h, a, controlled) {
      var i :| 0 <= i < |g| && Counts(g[i], r.beatStartedTurn) && Acts(g[i], a, controlled);
      assert Counts(h[i], r.beatStartedTurn) && Acts(h[i], a, controlled);
    }
  }

  lemma SameCoverage(r: Roteiro, g: Records, h: Records, controlled: string, matched: Matcher)
    requires r.beat.Some? && SameWords(g, h)
    ensures AnchorsMissing(r, g, matched) == AnchorsMissing(r, h, matched)
    ensures AnchorsHit(r, g, matched) == AnchorsHit(r, h, matched)
    ensures ActorsMissing(r, g, controlled) == ActorsMissing(r, h, controlled)
  {
    var beat := r.beat.value;
    SameHits(r, g, h, controlled, matched);
    SameHits(r, h, g, controlled, matched);
    assert AnchorsMissing(r, g, matched) == AnchorsMissing(r, h, matched) by {
      WhereAgrees(beat.anchors, a => !AnchorHit(r, g, a, matched), a => !AnchorHit(r, h, a, matched));
    }
    assert AnchorsHit(r, g, matched) == AnchorsHit(r, h, matched) by {
      WhereAgrees(beat.anchors, a => AnchorHit(r, g, a, matched), a => AnchorHit(r, h, a, matched));
    }
    assert ActorsMissing(r, g, controlled) == ActorsMissing(r, h, controlled) by {
      WhereAgrees(beat.actors, a => !ActorHit(r, g, a, controlled), a => !ActorHit(r, h, a, controlled));
    }
  }

  /** The measure of a beat reads turn, kind, speaker and text of the records, never their snapshots, which
      are completed only when the beat commits. */
  lemma MeasureReadsNoSnapshot(r: Roteiro, g: Records, h: Records, controlled: string, matched: Matcher)
    requires r.beat.Some? && SameWords(g, h)
    ensures Measure(r, g, controlled, matched) == Measure(r, h, controlled, matched)
  {
    SameCoverage(r, g, h, controlled, matched);
    SameTurns(g, h, r.beatStartedTurn);
    SameTurns(h, g, r.beatStartedTurn);
    SameEngagedTurns(g, h, r.beatStartedTurn, r.beat.value, controlled, matched);
    SameEngagedTurns(h, g, r.beatStartedTurn, r.beat.value, controlled, matched);
    assert Turns(g, r.beatStartedTurn) == Turns(h, r.beatStartedTurn);
    assert EngagedTurns(g, r.beatStartedTurn, r.beat.value, controlled, matched)
        == EngagedTurns(h, r.beatStartedTurn, r.beat.value, controlled, matched);
  }

  lemma MaintainReadsNoSnapshot(r: Option<Roteiro>, g: Records, h: Records, tick: int, turn: int, first: bool,
                                reply: Reply, w: Setting)
    requires SameWords(g, h)
    ensures Maintain(r, g, tick, turn, first, reply, w.cast, w.controlled, w.matched, w.similar)
         == Maintain(r, h, tick, turn, first, reply, w.cast, w.controlled, w.matched, w.similar)
  {
    assert NextTurn(g) == NextTurn(h);
    if r.Some? && r.value.beat.Some? {
      MeasureReadsNoSnapshot(Counted(r.value, first), g, h, w.controlled, w.matched);
    }
  }

  // ---- one beat ------------------------------------------------------------

  /** What a beat brings to the clock: whether it opens a player action, the planner's reply, the scene canon
      leaves, the ticks skipped, what follows canon, and the anchors its evidence covers. */
  datatype Upkeep = Upkeep(first: bool, reply: Reply, canon: Scene, ticks: nat, aftermath: seq<Sessions.Stage>, seen: seq<string>)

  /** The player's records as they stand when the beat is maintained: without clock and screenplay, which are
      stamped at commit. */
  function Unstamped(s: Sessions.Session, b: Sessions.Beat): Records {
    UndoTheorems.Spoken(s.world, NextTurn(s.history), Sessions.Says(b.player))
  }

  function Maintenance(s: Sessions.Session, b: Sessions.Beat, u: Upkeep, w: Setting): Maintained {
    Maintain(s.world.roteiro, s.history + Unstamped(s, b), s.world.tick, NextTurn(s.history), u.first, u.reply,
             w.cast, w.controlled, w.matched, w.similar)
  }

  /** The stages of the beat are the code's, with the screenplay its maintenance returned; and the commit adds a
      tick and the covered anchors to what the stages left. That the commit hooks leave clock and screenplay
      alone is an assumption: they are handed the whole game. */
  predicate Clocked(s: Sessions.Session, b: Sessions.Beat, u: Upkeep, w: Setting) {
    var m := Maintenance(s, b, u, w);
    && (forall st | st in u.aftermath :: st.Say? || st.Learn?)
    && !m.Raised?
    && b.stages == UndoTheorems.CodeOrder(m.roteiro, u.canon, u.ticks, u.aftermath)
    && var p := UndoTheorems.Played(s.world, Sessions.Says(b.player) + b.stages);
       Saved(b) ==> b.after.tick == p.tick + 1 && b.after.roteiro == Seen(p.roteiro, u.seen)
  }

  predicate Saved(b: Sessions.Beat) {
    Sessions.Speaks(b) || b.told
  }

  /** The beat as the story clock takes it: its records with their final snapshots. */
  function InputOf(s: Sessions.Session, b: Sessions.Beat, u: Upkeep): Input {
    var records := UndoTheorems.BeatRecords(s, b);
    var n := if |b.player| <= |records| then |b.player| else |records|;
    Input(records[..n], u.first, u.reply, records[n..], u.ticks, u.seen, Saved(b))
  }

  lemma {:induction false} SpokenAppend(w: World, step: int, a: seq<Sessions.Stage>, b: seq<Sessions.Stage>)
    ensures UndoTheorems.Spoken(w, step, a + b)
         == UndoTheorems.Spoken(w, step, a) + UndoTheorems.Spoken(UndoTheorems.Played(w, a), step, b)
    ensures UndoTheorems.Played(w, a + b) == UndoTheorems.Played(UndoTheorems.Played(w, a), b)
    decreases |a|
  {
    if a == [] {
      assert a + b == b;
    } else {
      assert (a + b)[0] == a[0] && (a + b)[1..] == a[1..] + b;
      SpokenAppend(Sessions.Onstage(w, a[0]), step, a[1..], b);
    }
  }

  lemma {:induction false} SaysSpoken(w: World, step: int, lines: seq<Sessions.Line>)
    ensures |UndoTheorems.Spoken(w, step, Sessions.Says(lines))| == |lines|
    ensures UndoTheorems.Played(w, Sessions.Says(lines)) == w
  {
    if lines != [] {
      assert Sessions.Says(lines)[1..] == Sessions.Says(lines[1..]);
      SaysSpoken(w, step, lines[1..]);
    }
  }

  lemma {:induction false} StampAllWords(h: Records, tick: int, roteiro: Option<Roteiro>)
    ensures SameWords(UndoTheorems.StampAll(h, tick, roteiro), h)
  {
    if h != [] { StampAllWords(h[..|h| - 1], tick, roteiro); }
  }

  /** The player's part of the committed records has the words of the unstamped ones. */
  lemma PlayerRecords(s: Sessions.Session, b: Sessions.Beat, u: Upkeep)
    ensures SameWords(InputOf(s, b, u).player, Unstamped(s, b))
    ensures InputOf(s, b, u).player + InputOf(s, b, u).rest == UndoTheorems.BeatRecords(s, b)
  {
    var step := NextTurn(s.history);
    var all := UndoTheorems.Spoken(s.world, step, Sessions.Says(b.player) + b.stages);
    SpokenAppend(s.world, step, Sessions.Says(b.player), b.stages);
    SaysSpoken(s.world, step, b.player);
    StampAllWords(all, s.world.tick, s.world.roteiro);
    FirstWords(UndoTheorems.BeatRecords(s, b), Unstamped(s, b),
               UndoTheorems.Spoken(UndoTheorems.Played(s.world, Sessions.Says(b.player)), step, b.stages));
  }

  lemma FirstWords(stamped: Records, head: Records, tail: Records)
    requires SameWords(stamped, head + tail)
    ensures |head| <= |stamped| && SameWords(stamped[..|head|], head)
  {
    var all := head + tail;
    forall i | 0 <= i < |head| ensures stamped[..|head|][i] == stamped[i] && head[i] == all[i] {}
  }

  lemma SameWordsBehind(h: Records, a: Records, b: Records)
    requires SameWords(a, b)
    ensures SameWords(h + a, h + b)
  {
  }

  /** Maintaining the beat before its records are stamped is the step of the story clock. */
  lemma MaintenanceIsOutcome(s: Sessions.Session, b: Sessions.Beat, u: Upkeep, w: Setting)
    ensures Maintenance(s, b, u, w) == Outcome(StoryOf(s), InputOf(s, b, u), w)
  {
    PlayerRecords(s, b, u);
    SameWordsBehind(s.history, InputOf(s, b, u).player, Unstamped(s, b));
    MaintainReadsNoSnapshot(s.world.roteiro, s.history + InputOf(s, b, u).player, s.history + Unstamped(s, b),
                            s.world.tick, NextTurn(s.history), u.first, u.reply, w);
  }

  lemma {:induction false} LaterStagesKeepClock(w: World, stages: seq<Sessions.Stage>)
    requires forall st | st in stages :: st.Say? || st.Learn?
    ensures UndoTheorems.Played(w, stages).tick == w.tick && UndoTheorems.Played(w, stages).roteiro == w.roteiro
    decreases |stages|
  {
    if stages != [] {
      assert stages[0] in stages;
      LaterStagesKeepClock(Sessions.Onstage(w, stages[0]), stages[1..]);
    }
  }

  lemma PlayedCons(w: World, stage: Sessions.Stage, tail: seq<Sessions.Stage>)
    ensures UndoTheorems.Played(w, [stage] + tail) == UndoTheorems.Played(Sessions.Onstage(w, stage), tail)
  {
    assert ([stage] + tail)[1..] == tail;
  }

  /** The clock and screenplay the stages leave. */
  lemma PlayedClock(w: World, roteiro: Option<Roteiro>, canon: Scene, ticks: nat, aftermath: seq<Sessions.Stage>)
    requires forall st | st in aftermath :: st.Say? || st.Learn?
    ensures var p := UndoTheorems.Played(w, UndoTheorems.CodeOrder(roteiro, canon, ticks, aftermath));
            p.tick == w.tick + ticks && p.roteiro == roteiro
  {
    var w1 := Sessions.Onstage(w, Sessions.Replan(roteiro));
    var w2 := Sessions.Onstage(w1, Sessions.Reconcile(canon));
    var w3 := Sessions.Onstage(w2, Sessions.SkipTime(ticks));
    PlayedCons(w, Sessions.Replan(roteiro), [Sessions.Reconcile(canon)] + ([Sessions.SkipTime(ticks)] + aftermath));
    PlayedCons(w1, Sessions.Reconcile(canon), [Sessions.SkipTime(ticks)] + aftermath);
    PlayedCons(w2, Sessions.SkipTime(ticks), aftermath);
    LaterStagesKeepClock(w3, aftermath);
  }

  /** What a committed beat leaves of clock and screenplay. */
  lemma CommittedClock(s: Sessions.Session, b: Sessions.Beat, u: Upkeep, w: Setting)
    requires Clocked(s, b, u, w) && Saved(b)
    ensures b.after.tick == s.world.tick + u.ticks + 1
    ensures b.after.roteiro == Seen(Maintenance(s, b, u, w).roteiro, u.seen)
  {
    var m := Maintenance(s, b, u, w);
    SpokenAppend(s.world, 0, Sessions.Says(b.player), b.stages);
    SaysSpoken(s.world, 0, b.player);
    PlayedClock(s.world, m.roteiro, u.canon, u.ticks, u.aftermath);
  }

  /** A beat of the session is a step of the story clock, saved or not. */
  lemma CommitIsNext(s: Sessions.Session, b: Sessions.Beat, u: Upkeep, w: Setting)
    requires Clocked(s, b, u, w)
    ensures Allowed(StoryOf(s), Play(InputOf(s, b, u)))
    ensures StoryOf(Sessions.Commit(s, b)) == Next(StoryOf(s), InputOf(s, b, u), w)
  {
    PlayerRecords(s, b, u);
    MaintenanceIsOutcome(s, b, u, w);
    BeatStory(s, b);
    InputAllowed(s, b, u);
    if Saved(b) {
      CommittedClock(s, b, u, w);
      NextOfSaved(StoryOf(s), InputOf(s, b, u), w);
    }
  }

  lemma InputAllowed(s: Sessions.Session, b: Sessions.Beat, u: Upkeep)
    requires InputOf(s, b, u).player + InputOf(s, b, u).rest == UndoTheorems.BeatRecords(s, b)
    ensures Allowed(StoryOf(s), Play(InputOf(s, b, u)))
  {
    if Sessions.Speaks(b) {
      BeatIsAllowed(s, b, InputOf(s, b, u));
    } else {
      UndoTheorems.SilentBeat(s, b);
    }
  }

  lemma NextOfSaved(s: Story, i: Input, w: Setting)
    requires i.saved && !Outcome(s, i, w).Raised?
    ensures Next(s, i, w) == Story(Seen(Outcome(s, i, w).roteiro, i.seen), s.tick + i.skip + 1, s.history + (i.player + i.rest))
  {
    assert Commits(s, i, w);
    assert s.history + i.player + i.rest == s.history + (i.player + i.rest);
  }

  /** The story a beat leaves. */
  lemma BeatStory(s: Sessions.Session, b: Sessions.Beat)
    ensures StoryOf(Sessions.Commit(s, b)) ==
      if Saved(b) then Story(b.after.roteiro, b.after.tick, s.history + UndoTheorems.BeatRecords(s, b))
      else StoryOf(s)
  {
    if Sessions.Speaks(b) {
      UndoTheorems.CommitAppends(s, b);
    } else {
      UndoTheorems.SilentBeat(s, b);
      assert s.history + [] == s.history;
    }
  }

  // ---- whole runs ----------------------------------------------------------

  /** A beat of the clock, an undo, or a compaction. */
  ghost predicate ClockedStep(s: Sessions.Session, a: CompactionTheorems.Action, w: Setting) {
    match a
    case Play(b) => exists u :: Clocked(s, b, u, w)
    case TakeBack => true
    case Squeeze(_, _, _, _) => true
    case GiveBack(_) => false
  }

  ghost predicate AllClocked(s: Sessions.Session, acts: seq<CompactionTheorems.Action>, w: Setting) {
    acts == [] ||
    (AllClocked(s, acts[..|acts| - 1], w) && ClockedStep(CompactionTheorems.Run(s, acts[..|acts| - 1]), acts[|acts| - 1], w))
  }

  /** A compaction with nothing to evict. */
  function Pause(): Input {
    Input([], true, Reply(None, false, [], ""), [], 0, [], false)
  }

  /** `m` is what the step of the session is for its story: the beat with its own records and reply, the undo,
      or the eviction of as many records. */
  ghost predicate IsMove(s: Sessions.Session, a: CompactionTheorems.Action, m: Action, w: Setting) {
    match a
    case Play(b) => exists u :: Clocked(s, b, u, w) && m == Play(InputOf(s, b, u))
    case TakeBack => m == TakeBack
    case Squeeze(c, p, _, _) =>
      m == if Sessions.Compacts(s, c, p) then Evict(Evicted(s, a)) else Play(Pause())
    case GiveBack(_) => false
  }

  /** How many records a step takes off the front of the live history. */
  ghost function Evicted(s: Sessions.Session, a: CompactionTheorems.Action): nat {
    var n := |s.history| - |CompactionTheorems.Step(s, a).history|;
    if n >= 0 then n else 0
  }

  /** `moves` is the session's run, step by step, as a run of its story. */
  ghost predicate Mirrors(s: Sessions.Session, acts: seq<CompactionTheorems.Action>, moves: seq<Action>, w: Setting)
    decreases |acts|
  {
    && |moves| == |acts|
    && (acts == [] ||
        var n := |acts| - 1;
        && Mirrors(s, acts[..n], moves[..n], w)
        && IsMove(CompactionTheorems.Run(s, acts[..n]), acts[n], moves[n], w))
  }

  /** A step and its move do the same to the story, and the archive grows by what is evicted. */
  ghost predicate Agrees(s: Sessions.Session, a: CompactionTheorems.Action, m: Action, w: Setting) {
    && Allowed(StoryOf(s), m) && Step(StoryOf(s), m, w) == StoryOf(CompactionTheorems.Step(s, a))
    && CompactionTheorems.Archive(CompactionTheorems.Step(s, a).stack)
       == CompactionTheorems.Archive(s.stack) + if m.Evict? then s.history[..m.n] else []
  }

  lemma MoveIsStep(s: Sessions.Session, a: CompactionTheorems.Action, m: Action, w: Setting)
    requires CompactionTheorems.Sound(s) && IsMove(s, a, m, w)
    ensures Agrees(s, a, m, w)
  {
    match a
    case Play(b) =>
      var u :| Clocked(s, b, u, w) && m == Play(InputOf(s, b, u));
      PlayAgrees(s, b, u, w);
    case TakeBack => UndoAgrees(s, w);
    case Squeeze(c, p, t, ps) => SqueezeAgrees(s, c, p, t, ps, w);
  }

  lemma PlayAgrees(s: Sessions.Session, b: Sessions.Beat, u: Upkeep, w: Setting)
    requires Clocked(s, b, u, w)
    ensures Agrees(s, CompactionTheorems.Play(b), Play(InputOf(s, b, u)), w)
  {
    CommitIsNext(s, b, u, w);
    CompactionTheorems.CommitShape(s, b);
    assert CompactionTheorems.Archive(s.stack) + [] == CompactionTheorems.Archive(s.stack);
  }

  lemma UndoAgrees(s: Sessions.Session, w: Setting)
    ensures Agrees(s, CompactionTheorems.TakeBack, TakeBack, w)
  {
    UndoIsTakeBack(s);
    if s.history != [] { CompactionTheorems.UndoShape(s); }
    assert CompactionTheorems.Archive(s.stack) + [] == CompactionTheorems.Archive(s.stack);
  }

  lemma SqueezeAgrees(s: Sessions.Session, c: CompactionTheorems.Positive, p: bool, t: Text, ps: PluginDelta.Tree, w: Setting)
    requires CompactionTheorems.Sound(s)
    ensures var a := CompactionTheorems.Squeeze(c, p, t, ps);
            Agrees(s, a, if Sessions.Compacts(s, c, p) then Evict(Evicted(s, a)) else Play(Pause()), w)
  {
    if Sessions.Compacts(s, c, p) {
      SqueezeIsEvict(s, c, p, t, ps);
    } else {
      PauseAgrees(s, c, p, t, ps, w);
    }
  }

  lemma PauseIsNothing(s: Story, w: Setting)
    ensures Allowed(s, Play(Pause())) && Step(s, Play(Pause()), w) == s
  {
  }

  lemma PauseAgrees(s: Sessions.Session, c: CompactionTheorems.Positive, p: bool, t: Text, ps: PluginDelta.Tree, w: Setting)
    requires !Sessions.Compacts(s, c, p)
    ensures Agrees(s, CompactionTheorems.Squeeze(c, p, t, ps), Play(Pause()), w)
  {
    PauseIsNothing(StoryOf(s), w);
    assert CompactionTheorems.Step(s, CompactionTheorems.Squeeze(c, p, t, ps)) == s;
    assert CompactionTheorems.Archive(s.stack) + [] == CompactionTheorems.Archive(s.stack);
  }

  lemma SqueezeIsEvict(s: Sessions.Session, c: CompactionTheorems.Positive, p: bool, t: Text, ps: PluginDelta.Tree)
    requires CompactionTheorems.Sound(s) && Sessions.Compacts(s, c, p)
    ensures var s' := Sessions.Compact(s, c, p, t, ps);
            var n := |s.history| - |s'.history|;
            && n >= 0 && Allowed(StoryOf(s), Evict(n)) && StoryOf(s') == StoryOf(s).(history := s.history[n..])
            && CompactionTheorems.Archive(s'.stack) == CompactionTheorems.Archive(s.stack) + s.history[..n]
  {
    CompactIsEvict(s, c, p, t, ps);
    CompactionTheorems.CompactShape(s, c, p, t, ps);
    var s' := Sessions.Compact(s, c, p, t, ps);
    var evicted := s'.stack[|s'.stack| - 1].evicted;
    assert s.history == evicted + s'.history && s.history[..|evicted|] == evicted;
  }


  predicate New(s: Sessions.Session) {
    s.history == [] && s.stack == [] && s.world.roteiro.None?
  }

  lemma BeginningIsFine(tick: int)
    ensures var t := Beginning(tick);
            Healthy(t.story) && Anchored(t.story.history) && AlwaysCounted(t) && StaysTimely(t)
  {
  }

  /** The timeline of a mirrored run: the session's story, with the evicted slices of its stack as the past. */
  ghost predicate Keeps(now: Sessions.Session, t: Timeline) {
    Sized(t) && t.story == StoryOf(now) && t.past == CompactionTheorems.Archive(now.stack)
  }

  lemma {:induction false} MirrorsRun(s: Sessions.Session, acts: seq<CompactionTheorems.Action>, moves: seq<Action>, w: Setting)
    requires New(s) && Mirrors(s, acts, moves, w)
    ensures var t0 := Beginning(s.world.tick);
            && AllAllowed(t0.story, moves, w) && After(t0.story, moves, w) == StoryOf(CompactionTheorems.Run(s, acts))
            && Unrolled(t0, moves, w).Some? && Keeps(CompactionTheorems.Run(s, acts), Unrolled(t0, moves, w).value)
  {
    var t0 := Beginning(s.world.tick);
    if acts != [] {
      var n := |acts| - 1;
      var before := CompactionTheorems.Run(s, acts[..n]);
      MirrorsRun(s, acts[..n], moves[..n], w);
      CompactionTheorems.HistoryIsConserved(s, acts[..n]);
      MoveIsStep(before, acts[n], moves[n], w);
      UnrolledNext(t0, moves, w);
      KeepsNext(before, acts[n], moves[n], Unrolled(t0, moves[..n], w).value, w);
    }
  }

  lemma KeepsNext(s: Sessions.Session, a: CompactionTheorems.Action, m: Action, t: Timeline, w: Setting)
    requires Keeps(s, t) && Agrees(s, a, m, w)
    ensures Keeps(CompactionTheorems.Step(s, a), Advanced(t, m, w))
  {
    AdvancedSized(t, m, w);
    assert CompactionTheorems.Archive(s.stack) + [] == CompactionTheorems.Archive(s.stack);
  }

  lemma {:induction false} MirrorExists(s: Sessions.Session, acts: seq<CompactionTheorems.Action>, w: Setting)
    returns (moves: seq<Action>)
    requires AllClocked(s, acts, w)
    ensures Mirrors(s, acts, moves, w)
  {
    moves := [];
    if acts != [] {
      var n := |acts| - 1;
      var earlier := MirrorExists(s, acts[..n], w);
      var m := MoveOf(CompactionTheorems.Run(s, acts[..n]), acts[n], w);
      moves := earlier + [m];
      assert moves[..n] == earlier;
    }
  }

  lemma MoveOf(s: Sessions.Session, a: CompactionTheorems.Action, w: Setting) returns (m: Action)
    requires ClockedStep(s, a, w)
    ensures IsMove(s, a, m, w)
  {
    match a
    case Play(b) =>
      var u :| Clocked(s, b, u, w);
      m := Play(InputOf(s, b, u));
    case TakeBack => m := TakeBack;
    case Squeeze(c, p, _, _) => m := if Sessions.Compacts(s, c, p) then Evict(Evicted(s, a)) else Play(Pause());
  }

  /** An undo on a compacted session leaves a record. */
  predicate LeavesARecord(s: Sessions.Session, a: CompactionTheorems.Action) {
    a.TakeBack? && s.history != [] && s.stack != [] ==> Sessions.Undo(s).history != []
  }

  ghost predicate AllLeaveARecord(s: Sessions.Session, acts: seq<CompactionTheorems.Action>) {
    acts == [] ||
    (AllLeaveARecord(s, acts[..|acts| - 1]) && LeavesARecord(CompactionTheorems.Run(s, acts[..|acts| - 1]), acts[|acts| - 1]))
  }

  lemma {:induction false} MirrorKeepsRecords(s: Sessions.Session, acts: seq<CompactionTheorems.Action>, moves: seq<Action>, w: Setting)
    requires New(s) && Mirrors(s, acts, moves, w) && AllLeaveARecord(s, acts)
    ensures AllKeepALiveRecord(Beginning(s.world.tick), moves, w)
  {
    if acts != [] {
      var n := |acts| - 1;
      MirrorKeepsRecords(s, acts[..n], moves[..n], w);
      MirrorsRun(s, acts[..n], moves[..n], w);
      UndoIsTakeBack(CompactionTheorems.Run(s, acts[..n]));
      assert CompactionTheorems.Archive([]) == [];
    }
  }

  /** Every run of a new session, of beats, undos and compactions, with the timeline its steps unroll to: the
      bounds of the story clock hold. If no undo empties a compacted session, every turn heard on the current
      beat is counted exactly if none of them was evicted, there are then at most three, and the next turn
      will be counted. */
  lemma SessionsStayOnTheClock(s: Sessions.Session, acts: seq<CompactionTheorems.Action>, w: Setting)
    returns (moves: seq<Action>, now: Timeline)
    requires New(s) && AllClocked(s, acts, w)
    ensures Mirrors(s, acts, moves, w) && Unrolled(Beginning(s.world.tick), moves, w) == Some(now)
    ensures Keeps(CompactionTheorems.Run(s, acts), now)
    ensures Healthy(now.story) && Anchored(now.story.history)
    ensures AllLeaveARecord(s, acts) ==>
      && Timely(now.story)
      && (now.story.roteiro.Some? ==>
            && (AllCounted(now) <==> NoneEvicted(now))
            && (NoneEvicted(now) ==> |Heard(now)| <= HARD_BEAT_TURN_CAP))
  {
    var t0 := Beginning(s.world.tick);
    moves := MirrorExists(s, acts, w);
    MirrorsRun(s, acts, moves, w);
    now := Unrolled(t0, moves, w).value;
    BeginningIsFine(s.world.tick);
    HealthyForever(t0.story, moves, w);
    if AllLeaveARecord(s, acts) {
      MirrorKeepsRecords(s, acts, moves, w);
      NumbersGoOn(t0, moves, w);
      HeardAtMostThree(t0, moves, w);
    }
  }

  // ---- how long a session hears one beat -----------------------------------

  function Numbers(h: Records): set<int> {
    set i | 0 <= i < |h| :: h[i].turn
  }

  /** On every turn of the history something was heard. */
  predicate Audible(h: Records) {
    Numbers(h) <= Turns(h, 1)
  }

  /** If the beat records anything, it is heard. */
  predicate IsHeard(b: Input) {
    b.player + b.rest != [] ==> exists r :: r in b.player + b.rest && r.kind != Thought
  }

  /** Every beat that records anything is heard. */
  predicate AllAudible(moves: seq<Action>) {
    moves == [] ||
    (AllAudible(moves[..|moves| - 1]) && (moves[|moves| - 1].Play? ==> IsHeard(moves[|moves| - 1].beat)))
  }

  lemma AudibleMore(h: Records, added: Records)
    requires Audible(h) && Numbered(h) && forall i | 0 <= i < |added| :: added[i].turn == NextTurn(h)
    requires added != [] ==> exists r :: r in added && r.kind != Thought
    ensures Audible(h + added)
  {
    var all := h + added;
    TurnsMore(h, added, 1);
    forall m | m in Numbers(all) ensures m in Turns(all, 1) {
      var i :| 0 <= i < |all| && all[i].turn == m;
      if i < |h| {
        assert all[i] == h[i] && m in Numbers(h);
      } else {
        assert all[i] == added[i - |h|];
        NumberedMore(h, []);
        var r :| r in added && r.kind != Thought;
        var j :| 0 <= j < |added| && added[j] == r;
        assert m in Turns(added, 1);
      }
    }
  }

  lemma AudibleRest(h: Records, n: nat)
    requires Audible(h) && Chronological(h) && Opens(h, n)
    ensures Audible(h[n..])
  {
    var rest := h[n..];
    forall j | 0 <= j < n ensures h[j].turn < h[n].turn {
      assert h[j].turn <= h[n - 1].turn < h[n].turn;
    }
    forall m | m in Numbers(rest) ensures m in Turns(rest, 1) {
      var i :| 0 <= i < |rest| && rest[i].turn == m;
      assert h[n + i] == rest[i] && h[n].turn <= m && m in Numbers(h);
      var j :| 0 <= j < |h| && Counts(h[j], 1) && h[j].turn == m;
      assert rest[j - n] == h[j];
    }
  }

  lemma {:induction false} DistinctSize(xs: seq<int>)
    requires forall i, j | 0 <= i < j < |xs| :: xs[i] != xs[j]
    ensures |set x | x in xs| == |xs|
  {
    if xs != [] {
      var n := |xs| - 1;
      DistinctSize(xs[..n]);
      assert xs == xs[..n] + [xs[n]];
      assert (set x | x in xs) == (set x | x in xs[..n]) + {xs[n]};
    }
  }

  /** Where every turn is heard, the heard turns are all turns. */
  lemma AudibleTurns(h: Records)
    requires Audible(h)
    ensures |Turns(h, 1)| == |DistinctTurns(h)|
  {
    DistinctTurnsExact(h);
    DistinctSize(DistinctTurns(h));
    var all := set x | x in DistinctTurns(h);
    forall m ensures m in all <==> m in Turns(h, 1) {
      if m in all {
        var i :| 0 <= i < |h| && h[i].turn == m;
        assert m in Numbers(h);
      }
    }
    assert all == Turns(h, 1);
  }

  /** No undo, and every compaction is configured to retain at least `k` turns. */
  predicate Windowed(acts: seq<CompactionTheorems.Action>, k: nat) {
    acts == [] ||
    var a := acts[|acts| - 1];
    Windowed(acts[..|acts| - 1], k) && !a.TakeBack? && (a.Squeeze? ==> a.configured >= k)
  }

  lemma WindowHolds(s: Sessions.Session, c: CompactionTheorems.Positive, p: bool, t: Text, ps: PluginDelta.Tree, k: nat)
    requires Chronological(s.history) && Sessions.Compacts(s, c, p) && k <= c && k <= 4
    ensures |DistinctTurns(Sessions.Compact(s, c, p, t, ps).history)| >= k
  {
    CompactionTheorems.CompactKeeps(s, c, p, t, ps);
    CompactionTheorems.WindowShrinks(c, |DistinctTurns(s.history)|, p);
  }

  lemma CutRetains(h: Records, n: nat, k: nat)
    requires Audible(h) && Chronological(h) && Opens(h, n) && |DistinctTurns(h[n..])| >= k
    ensures Audible(h[n..]) && |Turns(h[n..], 1)| >= k
  {
    AudibleRest(h, n);
    AudibleTurns(h[n..]);
  }

  lemma PlayAudible(s: Story, b: Input, w: Setting)
    requires Audible(s.history) && Numbered(s.history) && Allowed(s, Play(b)) && IsHeard(b)
    ensures Audible(Next(s, b, w).history)
  {
    assert s.history + b.player + b.rest == s.history + (b.player + b.rest);
    AudibleMore(s.history, b.player + b.rest);
  }

  /** What such a compaction leaves. */
  lemma SqueezeAudible(s: Sessions.Session, c: CompactionTheorems.Positive, p: bool, t: Text, ps: PluginDelta.Tree, m: Action,
                       k: nat, w: Setting)
    requires Agrees(s, CompactionTheorems.Squeeze(c, p, t, ps), m, w) && m.Evict? && Sessions.Compacts(s, c, p)
    requires Chronological(s.history) && Audible(s.history) && k <= c && k <= 4
    ensures Retains(StoryOf(s), m, k) && Audible(Sessions.Compact(s, c, p, t, ps).history)
  {
    WindowHolds(s, c, p, t, ps, k);
    var rest := Sessions.Compact(s, c, p, t, ps).history;
    assert s.history[m.n..] == rest;
    CutRetains(s.history, m.n, k);
  }

  lemma StepAudible(s: Sessions.Session, a: CompactionTheorems.Action, m: Action, k: nat, w: Setting)
    requires CompactionTheorems.Sound(s) && IsMove(s, a, m, w) && Agrees(s, a, m, w)
    requires Numbered(s.history) && Audible(s.history)
    requires !a.TakeBack? && (a.Squeeze? ==> a.configured >= k) && k <= 4 && (m.Play? ==> IsHeard(m.beat))
    ensures Retains(StoryOf(s), m, k) && Audible(CompactionTheorems.Step(s, a).history)
  {
    if a.Squeeze? && Sessions.Compacts(s, a.configured, a.pressure) {
      SqueezeAudible(s, a.configured, a.pressure, a.summary, a.plugins, m, k, w);
    } else {
      PlayAudible(StoryOf(s), m.beat, w);
    }
  }

  lemma LastMirrored(s: Sessions.Session, acts: seq<CompactionTheorems.Action>, moves: seq<Action>, w: Setting)
    requires Mirrors(s, acts, moves, w) && acts != []
    ensures |moves| == |acts|
    ensures var n := |acts| - 1;
            && Mirrors(s, acts[..n], moves[..n], w)
            && IsMove(CompactionTheorems.Run(s, acts[..n]), acts[n], moves[n], w)
  {
  }

  lemma MoveOnward(s: Sessions.Session, a: CompactionTheorems.Action, m: Action, w: Setting)
    requires IsMove(s, a, m, w) && !a.TakeBack?
    ensures !m.TakeBack?
  {
  }

  /** The session before the last step of a mirrored run: chronological, numbered, and its story agrees with the
      step. */
  lemma BeforeLast(s: Sessions.Session, acts: seq<CompactionTheorems.Action>, moves: seq<Action>, a: CompactionTheorems.Action,
                   m: Action, w: Setting) returns (before: Sessions.Session)
    requires New(s) && Mirrors(s, acts, moves, w) && IsMove(CompactionTheorems.Run(s, acts), a, m, w)
    ensures before == CompactionTheorems.Run(s, acts) && CompactionTheorems.Sound(before) && Numbered(before.history)
    ensures Agrees(before, a, m, w) && After(Beginning(s.world.tick).story, moves, w) == StoryOf(before)
  {
    before := CompactionTheorems.Run(s, acts);
    MirrorsRun(s, acts, moves, w);
    CompactionTheorems.HistoryIsConserved(s, acts);
    BeginningIsFine(s.world.tick);
    HealthyForever(Beginning(s.world.tick).story, moves, w);
    MoveIsStep(before, a, m, w);
  }

  lemma {:induction false} MirrorRetains(s: Sessions.Session, acts: seq<CompactionTheorems.Action>, moves: seq<Action>, k: nat, w: Setting)
    requires New(s) && Mirrors(s, acts, moves, w) && Windowed(acts, k) && k <= 4 && AllAudible(moves)
    ensures AllRetain(Beginning(s.world.tick).story, moves, k, w) && Audible(CompactionTheorems.Run(s, acts).history)
  {
    if acts != [] {
      var n := |acts| - 1;
      LastMirrored(s, acts, moves, w);
      MirrorRetains(s, acts[..n], moves[..n], k, w);
      var before := BeforeLast(s, acts[..n], moves[..n], acts[n], moves[n], w);
      StepAudible(before, acts[n], moves[n], k, w);
    }
  }

  lemma {:induction false} MirrorNoUndo(s: Sessions.Session, acts: seq<CompactionTheorems.Action>, moves: seq<Action>, w: Setting)
    requires Mirrors(s, acts, moves, w) && Windowed(acts, 0)
    ensures NoUndo(moves)
  {
    if acts != [] {
      var n := |acts| - 1;
      LastMirrored(s, acts, moves, w);
      MirrorNoUndo(s, acts[..n], moves[..n], w);
      MoveOnward(CompactionTheorems.Run(s, acts[..n]), acts[n], moves[n], w);
    }
  }

  lemma {:induction false} SmallerWindow(acts: seq<CompactionTheorems.Action>, k: nat, least: nat)
    requires Windowed(acts, k) && least <= k
    ensures Windowed(acts, least)
  {
    if acts != [] { SmallerWindow(acts[..|acts| - 1], k, least); }
  }

  lemma {:induction false} NothingToRetain(s: Story, moves: seq<Action>, w: Setting)
    ensures AllRetain(s, moves, 0, w)
  {
    if moves != [] { NothingToRetain(s, moves[..|moves| - 1], w); }
  }

  /** Over every run of player actions and compactions of a new session, with windows of any size, a beat is
      heard on seven turns at most. If every beat that records anything is heard and all windows hold two turns,
      on five; and if they hold three or more, as in any ordinary configuration, on three. */
  lemma SessionsHearBounded(s: Sessions.Session, acts: seq<CompactionTheorems.Action>, moves: seq<Action>, k: nat, w: Setting)
    requires New(s) && Mirrors(s, acts, moves, w) && Windowed(acts, k)
    requires Submits(Beginning(s.world.tick).story, moves, w)
    ensures var now := Unrolled(Beginning(s.world.tick), moves, w);
            && now.Some? && Keeps(CompactionTheorems.Run(s, acts), now.value)
            && (now.value.story.roteiro.Some? ==>
                  && |Heard(now.value)| <= 7
                  && (AllAudible(moves) ==> |Heard(now.value)| <= if k <= 1 then 7 else if k == 2 then 5 else 3))
  {
    var t := Beginning(s.world.tick);
    MirrorsRun(s, acts, moves, w);
    SmallerWindow(acts, k, 0);
    MirrorNoUndo(s, acts, moves, w);
    NothingToRetain(t.story, moves, w);
    HeardIsBounded(t, moves, 0, w);
    if AllAudible(moves) {
      var least := if k <= 3 then k else 3;
      SmallerWindow(acts, k, least);
      MirrorRetains(s, acts, moves, least, w);
      HeardIsBounded(t, moves, least, w);
    }
  }
}
