/** The story clock over runs that also undo turns and compact history: what a snapshot holds is a state the
    clock was in, so going back to it is safe. */
module StoryUndo {
  import opened Wrappers
  import opened Text
  import opened Model
  import opened History
  import opened StoryClock
  import opened StoryTheorems
  import Ints
  import Sessions
  import UndoTheorems
  import PluginDelta
  import CompactionTheorems

  /** What a committed story satisfies: the turn ceiling, an act index in range, a counter in 0..2. */
  ghost predicate Healthy(s: Story) {
    Ceiling(s) && ActsSane(s.roteiro) && 0 <= Replans(s.roteiro) <= ACT_REPLAN_THRESHOLD
  }

  /** Record `k` opens a turn. */
  predicate Opens(h: Records, k: nat) {
    k < |h| && (k == 0 || h[k - 1].turn != h[k].turn)
  }

  /** The story an undo down to record `k` goes back to. */
  function BackTo(h: Records, k: nat): Story
    requires k < |h|
  {
    Story(h[k].snapshot.roteiro, h[k].snapshot.tick, h[..k])
  }

  /** Every undo of the history leads to a healthy story. */
  ghost predicate Anchored(h: Records) {
    forall k: nat | Opens(h, k) :: Healthy(BackTo(h, k))
  }

  datatype Action =
    | Play(beat: Input)
    | TakeBack
    | Evict(n: nat)  // compaction drops the records before the n-th

  function TakenBack(s: Story): Story {
    if s.history == [] then s
    else BackTo(s.history, Sessions.TurnStart(s.history[..|s.history| - 1], s.history[|s.history| - 1].turn))
  }

  function Step(s: Story, a: Action, w: Setting): Story {
    match a
    case Play(b) => Next(s, b, w)
    case TakeBack => TakenBack(s)
    case Evict(n) => if n <= |s.history| then s.(history := s.history[n..]) else s
  }

  function After(s: Story, acts: seq<Action>, w: Setting): Story {
    if acts == [] then s else Step(After(s, acts[..|acts| - 1], w), acts[|acts| - 1], w)
  }

  /** A beat's records share the next turn number and carry the pre-beat clock and screenplay; a
      compaction cuts in front of a turn. */
  predicate Allowed(s: Story, a: Action) {
    match a
    case Play(b) =>
      Fits(s, b) && forall r | r in b.player + b.rest :: r.snapshot.tick == s.tick && r.snapshot.roteiro == s.roteiro
    case TakeBack => true
    case Evict(n) => Opens(s.history, n)
  }

  predicate AllAllowed(s: Story, acts: seq<Action>, w: Setting) {
    acts == [] || (AllAllowed(s, acts[..|acts| - 1], w) && Allowed(After(s, acts[..|acts| - 1], w), acts[|acts| - 1]))
  }

  // ---- the steps are those of a session ------------------------------------

  function StoryOf(s: Sessions.Session): Story {
    Story(s.world.roteiro, s.world.tick, s.history)
  }

  lemma {:induction false} StampAllStamps(h: Records, tick: int, roteiro: Option<Roteiro>)
    ensures forall r | r in UndoTheorems.StampAll(h, tick, roteiro) :: r.snapshot.tick == tick && r.snapshot.roteiro == roteiro
  {
    if h != [] { StampAllStamps(h[..|h| - 1], tick, roteiro); }
  }

  /** The records of a committed beat are allowed ones. */
  lemma BeatIsAllowed(s: Sessions.Session, b: Sessions.Beat, i: Input)
    requires Sessions.Speaks(b) && i.player + i.rest == UndoTheorems.BeatRecords(s, b)
    ensures Allowed(StoryOf(s), Play(i))
  {
    UndoTheorems.CommitAppends(s, b);
    StampAllStamps(UndoTheorems.Spoken(s.world, NextTurn(s.history), Sessions.Says(b.player) + b.stages), s.world.tick, s.world.roteiro);
  }

  lemma UndoIsTakeBack(s: Sessions.Session)
    ensures StoryOf(Sessions.Undo(s)) == TakenBack(StoryOf(s))
  {
  }

  /** A compaction is an allowed eviction. */
  lemma CompactIsEvict(s: Sessions.Session, configured: CompactionTheorems.Positive, pressure: bool, summary: Text, plugins: PluginDelta.Tree)
    requires Chronological(s.history) && Sessions.Compacts(s, configured, pressure)
    ensures var s' := Sessions.Compact(s, configured, pressure, summary, plugins);
            var n := |s.history| - |s'.history|;
            n >= 0 && Allowed(StoryOf(s), Evict(n)) && StoryOf(s').history == s.history[n..]
            && StoryOf(s').roteiro == s.world.roteiro && StoryOf(s').tick == s.world.tick
  {
    WindowCut(s.history, configured, pressure);
    CompactionTheorems.CompactHistory(s, configured, pressure, summary, plugins);
    CompactKeepsClock(s, configured, pressure, summary, plugins);
  }

  lemma CompactKeepsClock(s: Sessions.Session, configured: CompactionTheorems.Positive, pressure: bool, summary: Text, plugins: PluginDelta.Tree)
    ensures var s' := Sessions.Compact(s, configured, pressure, summary, plugins);
            s'.world.roteiro == s.world.roteiro && s'.world.tick == s.world.tick
  {
  }

  /** The retained window begins in front of a turn. */
  lemma WindowCut(h: Records, configured: CompactionTheorems.Positive, pressure: bool)
    requires Chronological(h) && |DistinctTurns(h)| > KeepRecent(configured, |DistinctTurns(h)|, pressure)
    ensures var keep := KeepRecent(configured, |DistinctTurns(h)|, pressure);
            1 <= keep
            && var newer := From(h, DistinctTurns(h)[|DistinctTurns(h)| - keep]);
            |newer| <= |h| && Opens(h, |h| - |newer|) && h[|h| - |newer|..] == newer
  {
    var keep := KeepRecent(configured, |DistinctTurns(h)|, pressure);
    CompactionTheorems.WindowShrinks(configured, |DistinctTurns(h)|, pressure);
    WindowSplit(h, keep);
    assert DistinctTurns([]) == [];
    CutOpens(h, Cutoff(h, keep));
  }

  lemma CutOpens(h: Records, cutoff: int)
    requires h == Before(h, cutoff) + From(h, cutoff) && Before(h, cutoff) != [] && From(h, cutoff) != []
    ensures Opens(h, |h| - |From(h, cutoff)|) && h[|h| - |From(h, cutoff)|..] == From(h, cutoff)
  {
    var older, newer := Before(h, cutoff), From(h, cutoff);
    BeforeMembers(h, cutoff);
    FromMembers(h, cutoff);
    assert older[|older| - 1] in older && newer[0] in newer;
    assert h[|older| - 1] == older[|older| - 1] && h[|older|] == newer[0];
  }

  lemma {:induction false} BeforeMembers(h: Records, cutoff: int)
    ensures forall r | r in Before(h, cutoff) :: r.turn < cutoff
  {
    if h != [] { BeforeMembers(h[..|h| - 1], cutoff); }
  }

  // ---- every step keeps the story healthy ----------------------------------

  lemma PlayHealthy(s: Story, b: Input, w: Setting)
    requires Healthy(s) && Anchored(s.history) && Allowed(s, Play(b))
    ensures Healthy(Next(s, b, w)) && Anchored(Next(s, b, w).history)
  {
    NextKeepsCeiling(s, b, w);
    MaintainKeepsPlayed(s, b, w);
    CounterStep(s, b, w);
    PlayAnchored(s, b, w);
  }

  lemma PlayAnchored(s: Story, b: Input, w: Setting)
    requires Healthy(s) && Anchored(s.history) && Allowed(s, Play(b))
    ensures Anchored(Next(s, b, w).history)
  {
    AppendAnchored(s, b.player + b.rest);
    assert s.history + b.player + b.rest == s.history + (b.player + b.rest);
  }

  lemma AppendAnchored(s: Story, added: Records)
    requires Healthy(s) && Anchored(s.history)
    requires forall i | 0 <= i < |added| :: added[i].turn == NextTurn(s.history)
    requires forall r | r in added :: r.snapshot.tick == s.tick && r.snapshot.roteiro == s.roteiro
    ensures Anchored(s.history + added)
  {
    var h, more := s.history, s.history + added;
    forall k: nat | Opens(more, k) ensures Healthy(BackTo(more, k)) {
      if k < |h| {
        assert Opens(h, k) && more[..k] == h[..k];
      } else {
        assert more[k] == added[k - |h|] && k == |h|;
        assert more[..k] == h && added[0] in added;
        assert BackTo(more, k) == s;
      }
    }
  }

  /** An undo goes back to the record that opens the last turn. */
  lemma TakeBackOpens(h: Records) returns (k: nat)
    requires h != []
    ensures k < |h| && k == Sessions.TurnStart(h[..|h| - 1], h[|h| - 1].turn) && Opens(h, k)
  {
    var init, turn := h[..|h| - 1], h[|h| - 1].turn;
    k := Sessions.TurnStart(init, turn);
    CompactionTheorems.TurnStartBlock(init, turn);
    assert h[k].turn == turn by { if k < |init| { assert init[k] == h[k]; } }
    assert Opens(h, k) by { if k > 0 { assert init[k - 1] == h[k - 1]; } }
  }

  lemma TakeBackHealthy(s: Story)
    requires Healthy(s) && Anchored(s.history)
    ensures Healthy(TakenBack(s)) && Anchored(TakenBack(s).history)
  {
    var h := s.history;
    if h != [] {
      var k := TakeBackOpens(h);
      forall j: nat | Opens(h[..k], j) ensures Healthy(BackTo(h[..k], j)) {
        assert Opens(h, j) && h[..k][..j] == h[..j];
      }
    }
  }

  /** A story with fewer old records is as healthy. */
  lemma FewerRecords(s: Story, n: nat)
    requires Healthy(s) && n <= |s.history|
    ensures Healthy(s.(history := s.history[n..]))
  {
    var h, rest := s.history, s.history[n..];
    forall i | 0 <= i < |rest| ensures 1 <= rest[i].turn < NextTurn(rest) {
      assert rest[i] == h[n + i];
    }
    if s.roteiro.Some? {
      var since := s.roteiro.value.beatStartedTurn;
      forall t | t in Turns(rest, since) ensures t in Turns(h, since) {
        var i :| 0 <= i < |rest| && Counts(rest[i], since) && rest[i].turn == t;
        assert h[n + i] == rest[i];
      }
      Ints.SubsetSize(Turns(rest, since), Turns(h, since));
    }
  }

  lemma EvictHealthy(s: Story, n: nat)
    requires Healthy(s) && Anchored(s.history) && Opens(s.history, n)
    ensures Healthy(s.(history := s.history[n..])) && Anchored(s.history[n..])
  {
    FewerRecords(s, n);
    var h, rest := s.history, s.history[n..];
    forall k: nat | Opens(rest, k) ensures Healthy(BackTo(rest, k)) {
      assert Opens(h, n + k) by { if k > 0 { assert rest[k - 1] == h[n + k - 1]; } }
      FewerRecords(BackTo(h, n + k), n);
      assert h[..n + k][n..] == rest[..k] && rest[k] == h[n + k];
    }
  }

  /** Over every run of beats, undos and compactions: at most three turns of the live history are counted
      for the current beat, the act index is in range and the replan counter in 0..2, and every further
      undo leads to such a state as well. Whether a turn that was heard is counted is the next section. */
  lemma {:induction false} HealthyForever(s: Story, acts: seq<Action>, w: Setting)
    requires Healthy(s) && Anchored(s.history) && AllAllowed(s, acts, w)
    ensures Healthy(After(s, acts, w)) && Anchored(After(s, acts, w).history)
  {
    if acts != [] {
      var n := |acts| - 1;
      HealthyForever(s, acts[..n], w);
      var now := After(s, acts[..n], w);
      match acts[n]
      case Play(b) => PlayHealthy(now, b, w);
      case TakeBack => TakeBackHealthy(now);
      case Evict(k) => EvictHealthy(now, k);
    }
  }

  // ---- heard is counted, while the turn numbers go on ----------------------

  /** The beat began no later than the turn that comes next. */
  predicate Timely(s: Story) {
    s.roteiro.Some? ==> s.roteiro.value.beatStartedTurn <= NextTurn(s.history)
  }

  /** A turn that is heard now is counted for the beat exactly if the beat began no later than that turn. */
  lemma CountedIffTimely(s: Story, added: Records)
    requires s.roteiro.Some? && exists r :: r in added && r.kind != Thought
    requires forall i | 0 <= i < |added| :: added[i].turn == NextTurn(s.history)
    ensures NextTurn(s.history) in Turns(s.history + added, s.roteiro.value.beatStartedTurn) <==> Timely(s)
  {
    var r :| r in added && r.kind != Thought;
    var i :| 0 <= i < |added| && added[i] == r;
    var all := s.history + added;
    assert all[|s.history| + i] == r;
  }

  /** Where no turn is counted, however many were heard, no turn ceiling applies: a beat with a missing anchor or
      an actor stays exactly as long as its actions have not run out or its cooldown is not over. */
  lemma UncountedBeatStays(r: Roteiro, h: Records, controlled: string, matched: Matcher)
    requires r.beat.Some? && forall i | 0 <= i < |h| :: h[i].turn < r.beatStartedTurn
    requires (exists a :: a in r.beat.value.anchors && a !in r.anchorsSeen) || r.beat.value.actors != []
    ensures Turns(h, r.beatStartedTurn) == {}
    ensures Evaluate(r, h, controlled, NextTurn(h), matched) ==
      if r.beatActionsElapsed < Min(r.beat.value.budgetTurns, HARD_BEAT_ACTION_CAP) then Verdict(Stay, InProgress)
      else if NextTurn(h) < r.cooldownUntilTurn then Verdict(Stay, Cooldown)
      else Verdict(if r.beatReplansInAct >= ACT_REPLAN_THRESHOLD then ReplanAct else ReplanBeat, Stalled)
  {
    var beat := r.beat.value;
    WhereExact(beat.anchors, a => !AnchorHit(r, h, a, matched));
    WhereExact(beat.actors, a => !ActorHit(r, h, a, controlled));
    if beat.actors != [] {
      assert beat.actors[0] in beat.actors && !ActorHit(r, h, beat.actors[0], controlled);
      assert beat.actors[0] in ActorsMissing(r, h, controlled);
    } else {
      var a :| a in beat.anchors && a !in r.anchorsSeen;
      assert !AnchorHit(r, h, a, matched) && a in AnchorsMissing(r, h, matched);
    }
  }
}
