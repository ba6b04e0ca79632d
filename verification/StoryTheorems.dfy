/** What the story clock guarantees over whole runs, whatever the planner replies. */
module StoryTheorems {
  import opened Wrappers
  import opened Model
  import opened History
  import opened StoryClock
  import Ints

  /** The committed part of a session the clock reads. */
  datatype Story = Story(roteiro: Option<Roteiro>, tick: int, history: Records)

  /** One beat: the player's own records, the planner's reply, what the beat adds afterwards, and whether
      it was saved (an error or a traceless beat is not). */
  datatype Input = Input(player: Records, first: bool, reply: Reply, rest: Records, skip: nat, seen: seq<string>, saved: bool)

  /** The parts of a session a run does not change. */
  datatype Setting = Setting(cast: Cast, controlled: string, matched: Matcher, similar: Similar)

  predicate Fits(s: Story, b: Input) {
    forall i | 0 <= i < |b.player + b.rest| :: (b.player + b.rest)[i].turn == NextTurn(s.history)
  }

  function Outcome(s: Story, b: Input, w: Setting): Maintained {
    Maintain(s.roteiro, s.history + b.player, s.tick, NextTurn(s.history), b.first, b.reply,
             w.cast, w.controlled, w.matched, w.similar)
  }

  predicate Commits(s: Story, b: Input, w: Setting) {
    b.saved && !Outcome(s, b, w).Raised?
  }

  function Seen(r: Option<Roteiro>, seen: seq<string>): Option<Roteiro> {
    if r.None? then None else Some(r.value.(anchorsSeen := r.value.anchorsSeen + seen))
  }

  function Next(s: Story, b: Input, w: Setting): Story {
    if !Commits(s, b, w) then s
    else Story(Seen(Outcome(s, b, w).roteiro, b.seen), s.tick + b.skip + 1, s.history + b.player + b.rest)
  }

  function EventOf(s: Story, b: Input, w: Setting): Event {
    if Commits(s, b, w) then Outcome(s, b, w).event else Event(None, false, false)
  }

  function Run(s: Story, bs: seq<Input>, w: Setting): Story {
    if bs == [] then s else Next(Run(s, bs[..|bs| - 1], w), bs[|bs| - 1], w)
  }

  function Events(s: Story, bs: seq<Input>, w: Setting): (es: seq<Event>)
    ensures |es| == |bs|
  {
    if bs == [] then []
    else Events(s, bs[..|bs| - 1], w) + [EventOf(Run(s, bs[..|bs| - 1], w), bs[|bs| - 1], w)]
  }

  predicate AllFit(s: Story, bs: seq<Input>, w: Setting) {
    bs == [] || (AllFit(s, bs[..|bs| - 1], w) && Fits(Run(s, bs[..|bs| - 1], w), bs[|bs| - 1]))
  }

  // ---- single decisions ----------------------------------------------------

  lemma {:induction false} WhereExact(xs: seq<string>, keep: string -> bool)
    ensures forall x :: x in Where(xs, keep) <==> x in xs && keep(x)
    ensures |Where(xs, keep)| <= |xs|
  {
    if xs != [] {
      WhereExact(xs[1..], keep);
      assert xs == [xs[0]] + xs[1..];
    }
  }

  lemma {:induction false} NothingKept(xs: seq<string>, keep: string -> bool)
    requires forall x | x in xs :: !keep(x)
    ensures Where(xs, keep) == []
  {
    if xs != [] { NothingKept(xs[1..], keep); }
  }

  /** Advancing is never blocked: a beat whose anchors and actors have all landed moves on, whatever the
      cooldown, the clocks and the replan counter say. */
  lemma CoverageAlwaysAdvances(r: Roteiro, h: Records, controlled: string, nextTurn: int, matched: Matcher)
    requires r.beat.Some? && (r.beat.value.anchors != [] || r.beat.value.actors != [])
    requires forall a | a in r.beat.value.anchors :: AnchorHit(r, h, a, matched)
    requires forall a | a in r.beat.value.actors :: ActorHit(r, h, a, controlled)
    ensures Evaluate(r, h, controlled, nextTurn, matched).decision.Advance?
  {
    NothingKept(r.beat.value.anchors, a => !AnchorHit(r, h, a, matched));
    NothingKept(r.beat.value.actors, a => !ActorHit(r, h, a, controlled));
  }

  /** A replan of an existing beat waits for the cooldown, and one called drifted follows at least three
      progress turns later than everything that engaged the beat. */
  lemma ReplansAreEarned(r: Roteiro, h: Records, controlled: string, nextTurn: int, matched: Matcher)
    requires r.beat.Some?
    ensures var v := Evaluate(r, h, controlled, nextTurn, matched);
            && (v.decision.ReplanBeat? || v.decision.ReplanAct? ==> nextTurn >= r.cooldownUntilTurn)
            && (v.reason.Drifted? ==>
                  exists late: set<int> :: |late| >= DRIFT_WINDOW_TURNS && late <= Turns(h, r.beatStartedTurn)
                    && forall i | 0 <= i < |h| && Counts(h[i], r.beatStartedTurn)
                                  && Engages(h[i], r.beat.value, controlled, matched) :: forall t | t in late :: h[i].turn < t)
  {
    var turns := Turns(h, r.beatStartedTurn);
    var engaged := EngagedTurns(h, r.beatStartedTurn, r.beat.value, controlled, matched);
    var late := Trailing(turns, engaged);
    assert late <= turns;
    forall i, t | 0 <= i < |h| && Counts(h[i], r.beatStartedTurn)
                  && Engages(h[i], r.beat.value, controlled, matched) && t in late
      ensures h[i].turn < t
    {
      assert h[i].turn in engaged;
    }
  }

  lemma {:induction false} DistinctExact(xs: seq<string>)
    ensures forall x :: x in Distinct(xs) <==> x in xs
  {
    if xs != [] {
      var n := |xs| - 1;
      DistinctExact(xs[..n]);
      assert xs == xs[..n] + [xs[n]];
    }
  }

  /** Whatever was generated, a beat waits only on cast members other than the controlled character, has at
      most five anchors and a budget of two to ten turns; only an empty intent is refused. */
  lemma BeatsAreClamped(raw: RawBeat, cast: Cast, controlled: string)
    ensures var b := ValidateBeat(Some(raw), cast, controlled);
            && (b.Some? <==> raw.intent != "")
            && (b.Some? ==>
                  && (forall a :: a in b.value.actors <==> a in raw.actors && a in cast && a != controlled)
                  && |b.value.anchors| <= MAX_ANCHORS
                  && (forall a | a in b.value.anchors :: a in raw.anchors && a != "")
                  && MIN_BUDGET_TURNS <= b.value.budgetTurns <= MAX_BUDGET_TURNS)
  {
    DistinctExact(raw.actors);
    DistinctExact(raw.anchors);
    WhereExact(Distinct(raw.actors), a => a in cast && a != controlled);
    WhereExact(Distinct(raw.anchors), a => a != "");
  }

  // ---- acts ----------------------------------------------------------------

  predicate ActsSane(r: Option<Roteiro>) {
    r.Some? ==> r.value.actIndex <= |r.value.acts|
  }

  /** The acts up to the current one, which nothing may rewrite. */
  function PlayedActs(r: Roteiro): seq<RoteiroAct> {
    if r.actIndex + 1 <= |r.acts| then r.acts[..r.actIndex + 1] else r.acts
  }

  lemma ReplanKeepsPlayed(r: Roteiro, v: Verdict, beat: RoteiroBeat, reply: Reply, turn: int, tick: int, similar: Similar)
    requires r.actIndex <= |r.acts|
    ensures var n := Replan(r, v, beat, reply, turn, tick, similar);
            PlayedActs(r) <= n.acts && r.actIndex <= n.actIndex <= |n.acts| && n.actIndex <= r.actIndex + 1
  {
  }

  /** The verdict a maintenance step acts on. */
  function VerdictOf(s: Story, b: Input, w: Setting): Verdict
    requires s.roteiro.Some?
  {
    var h := s.history + b.player;
    Evaluate(Counted(s.roteiro.value, b.first), h, w.controlled, NextTurn(h), w.matched)
  }

  lemma Cases(s: Story, b: Input, w: Setting)
    requires s.roteiro.Some?
    ensures Outcome(s, b, w)
         == MaintainBeat(Counted(s.roteiro.value, b.first), VerdictOf(s, b, w),
                         ValidateBeat(b.reply.beat, w.cast, w.controlled), b.reply, NextTurn(s.history), s.tick, w.similar)
  {
  }

  /** A maintenance step never rewrites an act already reached and never goes back; a deadline goes on
      by exactly one act, also from the last act and when no usable act was generated. */
  lemma MaintainKeepsPlayed(s: Story, b: Input, w: Setting)
    requires ActsSane(s.roteiro)
    ensures ActsSane(Next(s, b, w).roteiro)
    ensures s.roteiro.Some? ==>
      var r, n := s.roteiro.value, Next(s, b, w).roteiro;
      n.Some? && PlayedActs(r) <= n.value.acts && r.actIndex <= n.value.actIndex
    ensures EventOf(s, b, w).staged.Some? ==>
      && s.roteiro.Some? && EventOf(s, b, w).staged.value == s.roteiro.value.actIndex < |s.roteiro.value.acts|
      && Next(s, b, w).roteiro.value.actIndex == s.roteiro.value.actIndex + 1
  {
    if s.roteiro.Some? && Commits(s, b, w) {
      Cases(s, b, w);
      var r := Counted(s.roteiro.value, b.first);
      var beat := ValidateBeat(b.reply.beat, w.cast, w.controlled);
      var v := VerdictOf(s, b, w);
      if DeadlineDue(r, s.tick) {
        DeadlineAdvances(r, beat.value, b.reply, NextTurn(s.history), s.tick, w.similar);
      } else if !v.decision.Stay? {
        ReplanKeepsPlayed(r, v, beat.value, b.reply, NextTurn(s.history), s.tick, w.similar);
      }
    }
  }

  lemma DeadlineAdvances(r: Roteiro, beat: RoteiroBeat, reply: Reply, turn: int, tick: int, similar: Similar)
    requires r.actIndex < |r.acts|
    ensures var n := Deadline(r, beat, reply, turn, tick, similar);
            n.actIndex == r.actIndex + 1 <= |n.acts| && PlayedActs(r) <= n.acts
  {
    var terminal := r.actIndex + 1 >= |r.acts|;
    var r1 := r.(actIndex := if terminal then r.actIndex else r.actIndex + 1, actStartedTick := tick, beatReplansInAct := 0);
    ReplanKeepsPlayed(r1, Verdict(if terminal then ReplanAct else ReplanBeat, ActDeadline), beat, reply, turn, tick, similar);
  }

  /** Along a run the index bounds every act staged so far. */
  lemma {:induction false} StagedBelowIndex(s: Story, bs: seq<Input>, w: Setting)
    requires ActsSane(s.roteiro)
    ensures ActsSane(Run(s, bs, w).roteiro)
    ensures forall i | 0 <= i < |bs| && Events(s, bs, w)[i].staged.Some? ::
              Run(s, bs, w).roteiro.Some? && Events(s, bs, w)[i].staged.value < Run(s, bs, w).roteiro.value.actIndex
    ensures forall i, j | 0 <= i < j < |bs| && Events(s, bs, w)[i].staged.Some? && Events(s, bs, w)[j].staged.Some? ::
              Events(s, bs, w)[i].staged.value < Events(s, bs, w)[j].staged.value
  {
    if bs != [] {
      var n := |bs| - 1;
      StagedBelowIndex(s, bs[..n], w);
      MaintainKeepsPlayed(Run(s, bs[..n], w), bs[n], w);
    }
  }

  /** An act stays what it was when the run reached it. */
  lemma {:induction false} ReachedActsStay(s: Story, bs: seq<Input>, w: Setting)
    requires ActsSane(s.roteiro) && s.roteiro.Some?
    ensures var n := Run(s, bs, w).roteiro;
            && n.Some? && n.value.actIndex >= s.roteiro.value.actIndex && n.value.actIndex <= |n.value.acts|
            && PlayedActs(s.roteiro.value) <= n.value.acts
  {
    if bs != [] {
      var n := |bs| - 1;
      ReachedActsStay(s, bs[..n], w);
      var mid := Run(s, bs[..n], w);
      MaintainKeepsPlayed(mid, bs[n], w);
      assert PlayedActs(s.roteiro.value) <= PlayedActs(mid.roteiro.value);
    }
  }

  // ---- the turn ceiling ----------------------------------------------------

  /** Every turn number so far is positive and below the next one. */
  ghost predicate Numbered(h: Records) {
    forall i | 0 <= i < |h| :: 1 <= h[i].turn < NextTurn(h)
  }

  /** What holds of every committed story: at most three turns are counted for the current beat, and its
      cooldown ends within two turns of its start. */
  ghost predicate Ceiling(s: Story) {
    && Numbered(s.history)
    && (s.roteiro.Some? ==>
          && s.roteiro.value.cooldownUntilTurn <= s.roteiro.value.beatStartedTurn + COOLDOWN_TURNS
          && |Turns(s.history, s.roteiro.value.beatStartedTurn)| <= HARD_BEAT_TURN_CAP)
  }

  lemma AddedTurn(h: Records, added: Records, since: int)
    requires forall i | 0 <= i < |added| :: added[i].turn == NextTurn(h)
    ensures Turns(h + added, since) <= Turns(h, since) + {NextTurn(h)}
    ensures |Turns(h + added, since)| <= |Turns(h, since)| + 1
  {
    var all := h + added;
    forall t | t in Turns(all, since) ensures t in Turns(h, since) + {NextTurn(h)} {
      var i :| 0 <= i < |all| && Counts(all[i], since) && all[i].turn == t;
      if i < |h| { assert h[i] == all[i]; } else { assert all[i] == added[i - |h|]; }
    }
    Ints.SubsetSize(Turns(all, since), Turns(h, since) + {NextTurn(h)});
  }

  lemma NumberedMore(h: Records, added: Records)
    requires Numbered(h) && forall i | 0 <= i < |added| :: added[i].turn == NextTurn(h)
    ensures Numbered(h + added)
    ensures added != [] ==> NextTurn(h + added) == NextTurn(h) + 1
    ensures NextTurn(h) >= 1
  {
    if h != [] { assert 1 <= h[|h| - 1].turn; }
    var all := h + added;
    if added == [] {
      assert all == h;
    } else {
      assert all[|all| - 1] == added[|added| - 1];
    }
  }

  /** Where the cap is reached the cooldown is over, with or without a player's record in the turn. */
  lemma CapOutlivesCooldown(h: Records, since: int, cooldown: int)
    requires Numbered(h) && cooldown <= since + COOLDOWN_TURNS
    requires |Turns(h, since)| >= HARD_BEAT_TURN_CAP
    ensures NextTurn(h) >= cooldown
  {
    forall t | t in Turns(h, since) ensures since <= t < NextTurn(h) {
      var i :| 0 <= i < |h| && Counts(h[i], since) && h[i].turn == t;
    }
    Ints.IntervalSize(Turns(h, since), since, NextTurn(h));
  }

  /** So a maintenance step that keeps the beat leaves room for the turn about to be narrated. */
  lemma StayLeavesRoom(r: Roteiro, h: Records, controlled: string, matched: Matcher)
    requires Numbered(h) && r.cooldownUntilTurn <= r.beatStartedTurn + COOLDOWN_TURNS
    requires Evaluate(r, h, controlled, NextTurn(h), matched).decision.Stay?
    ensures |Turns(h, r.beatStartedTurn)| < HARD_BEAT_TURN_CAP
  {
    if |Turns(h, r.beatStartedTurn)| >= HARD_BEAT_TURN_CAP {
      CapOutlivesCooldown(h, r.beatStartedTurn, r.cooldownUntilTurn);
    }
  }

  lemma FreshBeatTurns(h: Records, added: Records, turn: int)
    requires Numbered(h) && turn == NextTurn(h)
    requires forall i | 0 <= i < |added| :: added[i].turn == turn
    ensures |Turns(h + added, turn)| <= 1
  {
    AddedTurn(h, added, turn);
    assert Turns(h, turn) == {};
  }

  lemma AllTurns(s: Story, b: Input)
    requires Fits(s, b)
    ensures forall i | 0 <= i < |b.player| :: b.player[i].turn == NextTurn(s.history)
    ensures forall i | 0 <= i < |b.rest| :: b.rest[i].turn == NextTurn(s.history)
  {
    var all := b.player + b.rest;
    forall i | 0 <= i < |b.player| ensures b.player[i].turn == NextTurn(s.history) { assert all[i] == b.player[i]; }
    forall i | 0 <= i < |b.rest| ensures b.rest[i].turn == NextTurn(s.history) { assert all[|b.player| + i] == b.rest[i]; }
  }

  /** A maintenance step starts a beat at this turn, with a cooldown of at most two turns, or keeps the
      beat it found because its cap is not reached. */
  lemma StartedOrKept(s: Story, b: Input, w: Setting)
    requires Ceiling(s) && Fits(s, b) && Commits(s, b, w)
    ensures Outcome(s, b, w).roteiro.Some?
    ensures var n := Outcome(s, b, w).roteiro.value;
            || (n.beatStartedTurn == NextTurn(s.history)
                && n.cooldownUntilTurn <= n.beatStartedTurn + COOLDOWN_TURNS)
            || (s.roteiro.Some? && n.beatStartedTurn == s.roteiro.value.beatStartedTurn
                && n.cooldownUntilTurn == s.roteiro.value.cooldownUntilTurn
                && |Turns(s.history + b.player, n.beatStartedTurn)| < HARD_BEAT_TURN_CAP)
  {
    AllTurns(s, b);
    NumberedMore(s.history, b.player);
    var h := s.history + b.player;
    if s.roteiro.Some? {
      Cases(s, b, w);
      var r1 := Counted(s.roteiro.value, b.first);
      var v := VerdictOf(s, b, w);
      if !DeadlineDue(r1, s.tick) && v.decision.Stay? {
        StayLeavesRoom(r1, h, w.controlled, w.matched);
      }
    }
  }

  lemma NextKeepsCeiling(s: Story, b: Input, w: Setting)
    requires Ceiling(s) && Fits(s, b)
    ensures Ceiling(Next(s, b, w))
  {
    if Commits(s, b, w) {
      StartedOrKept(s, b, w);
      AllTurns(s, b);
      var n := Outcome(s, b, w).roteiro.value;
      assert s.history + b.player + b.rest == s.history + (b.player + b.rest);
      NumberedMore(s.history, b.player + b.rest);
      if n.beatStartedTurn == NextTurn(s.history) {
        FreshBeatTurns(s.history, b.player + b.rest, NextTurn(s.history));
      } else {
        StayTurns(s.history, b.player, b.rest, n.beatStartedTurn);
      }
    }
  }

  /** The turn of a beat counts once, whether the player's part of it was measured already or not. */
  lemma StayTurns(h: Records, player: Records, rest: Records, since: int)
    requires forall i | 0 <= i < |player| :: player[i].turn == NextTurn(h)
    requires forall i | 0 <= i < |rest| :: rest[i].turn == NextTurn(h)
    ensures |Turns(h + player + rest, since)| <= |Turns(h + player, since)| + 1
  {
    var all := h + player + rest;
    var mid := h + player;
    forall t | t in Turns(all, since) ensures t in Turns(mid, since) + {NextTurn(h)} {
      var i :| 0 <= i < |all| && Counts(all[i], since) && all[i].turn == t;
      if i < |mid| { assert mid[i] == all[i]; } else { assert all[i] == rest[i - |mid|]; }
    }
    Ints.SubsetSize(Turns(all, since), Turns(mid, since) + {NextTurn(h)});
  }

  /** At every committed state of a run the current beat has progress records on at most three turns. */
  lemma {:induction false} BeatsAreShort(s: Story, bs: seq<Input>, w: Setting)
    requires Ceiling(s) && AllFit(s, bs, w)
    ensures Ceiling(Run(s, bs, w))
  {
    if bs != [] {
      var n := |bs| - 1;
      BeatsAreShort(s, bs[..n], w);
      NextKeepsCeiling(Run(s, bs[..n], w), bs[n], w);
    }
  }

  // ---- escalation ----------------------------------------------------------

  /** Stall/drift beat replans since the last act-scope replan or change of act. */
  function StallsSince(es: seq<Event>): nat {
    if es == [] then 0
    else
      var e := es[|es| - 1];
      (if e.reset then 0 else StallsSince(es[..|es| - 1])) + if e.stall then 1 else 0
  }

  function Replans(r: Option<Roteiro>): int {
    if r.None? then 0 else r.value.beatReplansInAct
  }

  lemma ReplanCounts(r: Roteiro, v: Verdict, beat: RoteiroBeat, reply: Reply, turn: int, tick: int, similar: Similar)
    ensures var n := Replan(r, v, beat, reply, turn, tick, similar);
            n.beatReplansInAct == (if v.decision.ReplanAct? || n.actIndex != r.actIndex then 0 else r.beatReplansInAct)
              + (if v.decision.ReplanBeat? && v.reason in {Stalled, Drifted} then 1 else 0)
  {
  }

  lemma DeadlineCounts(r: Roteiro, beat: RoteiroBeat, reply: Reply, turn: int, tick: int, similar: Similar)
    ensures Deadline(r, beat, reply, turn, tick, similar).beatReplansInAct == 0
  {
  }

  lemma CounterStep(s: Story, b: Input, w: Setting)
    requires 0 <= Replans(s.roteiro) <= ACT_REPLAN_THRESHOLD
    ensures var e := EventOf(s, b, w);
            && Replans(Next(s, b, w).roteiro) == (if e.reset then 0 else Replans(s.roteiro)) + (if e.stall then 1 else 0)
            && 0 <= Replans(Next(s, b, w).roteiro) <= ACT_REPLAN_THRESHOLD
            && (e.stall ==> Replans(s.roteiro) < ACT_REPLAN_THRESHOLD)
  {
    if s.roteiro.Some? && Commits(s, b, w) {
      Cases(s, b, w);
      var r1 := Counted(s.roteiro.value, b.first);
      var h := s.history + b.player;
      var turn := NextTurn(s.history);
      var v := VerdictOf(s, b, w);
      if DeadlineDue(r1, s.tick) {
        DeadlineCounts(r1, ValidateBeat(b.reply.beat, w.cast, w.controlled).value, b.reply, turn, s.tick, w.similar);
      } else if !v.decision.Stay? {
        ReplanCounts(r1, v, ValidateBeat(b.reply.beat, w.cast, w.controlled).value, b.reply, turn, s.tick, w.similar);
        StallBelowThreshold(r1, h, w.controlled, w.matched);
      }
    }
  }

  lemma StallBelowThreshold(r: Roteiro, h: Records, controlled: string, matched: Matcher)
    ensures var v := Evaluate(r, h, controlled, NextTurn(h), matched);
            v.decision.ReplanBeat? && v.reason in {Stalled, Drifted} ==> r.beatReplansInAct < ACT_REPLAN_THRESHOLD
  {
  }

  /** The counter is the number of stall/drift beat replans since the last reset, and stays in 0..2. */
  lemma {:induction false} CounterIsExact(s: Story, bs: seq<Input>, w: Setting)
    requires Replans(s.roteiro) == 0
    ensures Replans(Run(s, bs, w).roteiro) == StallsSince(Events(s, bs, w)) <= ACT_REPLAN_THRESHOLD
    ensures forall i | 0 <= i < |bs| && Events(s, bs, w)[i].stall :: StallsSince(Events(s, bs, w)[..i]) < ACT_REPLAN_THRESHOLD
  {
    if bs != [] {
      var n := |bs| - 1;
      CounterIsExact(s, bs[..n], w);
      CounterStep(Run(s, bs[..n], w), bs[n], w);
      var es, fs := Events(s, bs, w), Events(s, bs[..n], w);
      assert es[..n] == fs;
      forall i | 0 <= i < |bs| && es[i].stall ensures StallsSince(es[..i]) < ACT_REPLAN_THRESHOLD {
        if i < n { assert es[..i] == fs[..i]; }
      }
    }
  }

  lemma {:induction false} StallsAdd(es: seq<Event>, i: nat, j: nat, k: nat)
    requires i < j < k <= |es| && es[i].stall && es[j].stall
    requires forall r | i < r < k :: !es[r].reset
    ensures StallsSince(es[..k]) >= 2
    decreases k
  {
    var now := es[..k];
    assert now[..k - 1] == es[..k - 1] && now[k - 1] == es[k - 1];
    if j < k - 1 {
      StallsAdd(es, i, j, k - 1);
    } else {
      OneStall(es, i, k - 1);
    }
  }

  lemma {:induction false} OneStall(es: seq<Event>, i: nat, k: nat)
    requires i < k <= |es| && es[i].stall
    requires forall r | i < r < k :: !es[r].reset
    ensures StallsSince(es[..k]) >= 1
    decreases k
  {
    var now := es[..k];
    assert now[..k - 1] == es[..k - 1] && now[k - 1] == es[k - 1];
    if i < k - 1 { OneStall(es, i, k - 1); }
  }

  /** Between any three stall/drift beat replans of a run lies an act-scope replan or a change of act. */
  lemma ThirdStallEscalates(s: Story, bs: seq<Input>, w: Setting, i: nat, j: nat, k: nat)
    requires Replans(s.roteiro) == 0
    requires i < j < k < |bs|
    requires Events(s, bs, w)[i].stall && Events(s, bs, w)[j].stall && Events(s, bs, w)[k].stall
    ensures exists r :: i < r < k && Events(s, bs, w)[r].reset
  {
    CounterIsExact(s, bs, w);
    var es := Events(s, bs, w);
    if forall r | i < r < k :: !es[r].reset {
      StallsAdd(es, i, j, k);
    }
  }

  // ---- what an escalation really changes -----------------------------------

  /** The acts or the place in them are other than before. */
  predicate Changed(s: Story, b: Input, w: Setting) {
    var n := Next(s, b, w).roteiro;
    if s.roteiro.None? then n.Some?
    else n.Some? && (n.value.acts != s.roteiro.value.acts || n.value.actIndex != s.roteiro.value.actIndex)
  }

  /** An act-scope replan whose reply neither closes the act in favour of a planned next one nor offers acts
      other than the planned ones: none at all, or none that survives the comparison with the acts reached. */
  predicate IdleReplan(r: Roteiro, v: Verdict, reply: Reply, similar: Similar)
    requires r.actIndex <= |r.acts|
  {
    && v.decision.ReplanAct?
    && !(reply.actCompleted && r.actIndex < |r.acts| - 1)
    && var offered := ValidateActs(FirstFive(reply.acts));
    && (offered == [] || Fresh(offered, PlayedActs(r), similar) == r.acts[|PlayedActs(r)|..])
  }

  predicate Idle(s: Story, b: Input, w: Setting)
    requires ActsSane(s.roteiro)
  {
    && s.roteiro.Some? && Commits(s, b, w)
    && !DeadlineDue(s.roteiro.value, s.tick)
    && IdleReplan(s.roteiro.value, VerdictOf(s, b, w), b.reply, w.similar)
  }

  /** The counter goes back to zero although nothing was rewritten: on the last act, with two replans
      spent, a reply without acts is enough. */
  lemma IdleReplanForgets(r: Roteiro, reason: Reason, beat: RoteiroBeat, reply: Reply, turn: int, tick: int, similar: Similar)
    requires r.actIndex + 1 == |r.acts| && r.beatReplansInAct == ACT_REPLAN_THRESHOLD
    requires reason in {Stalled, Drifted} && reply.acts == []
    ensures var n := Replan(r, Verdict(ReplanAct, reason), beat, reply, turn, tick, similar);
            n.acts == r.acts && n.actIndex == r.actIndex && n.beatReplansInAct == 0
  {
    assert FirstFive(reply.acts) == [];
  }

  lemma SplicedActs(r: Roteiro, v: Verdict, beat: RoteiroBeat, reply: Reply, turn: int, tick: int, similar: Similar)
    requires r.actIndex <= |r.acts|
    ensures var n, offered := Replan(r, v, beat, reply, turn, tick, similar), ValidateActs(FirstFive(reply.acts));
            n.acts == r.acts <==>
              !v.decision.ReplanAct? || offered == [] || Fresh(offered, PlayedActs(r), similar) == r.acts[|PlayedActs(r)|..]
  {
    var kept := PlayedActs(r);
    var offered := ValidateActs(FirstFive(reply.acts));
    assert r.acts == kept + r.acts[|kept|..];
    if v.decision.ReplanAct? && offered != [] {
      assert (kept + Fresh(offered, kept, similar))[|kept|..] == Fresh(offered, kept, similar);
    }
  }

  lemma ReplanChanges(r: Roteiro, v: Verdict, beat: RoteiroBeat, reply: Reply, turn: int, tick: int, similar: Similar)
    requires r.actIndex <= |r.acts| && v.reason != ActDeadline
    ensures var n := Replan(r, v, beat, reply, turn, tick, similar);
            n.acts != r.acts || n.actIndex != r.actIndex <==>
              (v.decision.ReplanAct? || n.actIndex != r.actIndex) && !IdleReplan(r, v, reply, similar)
  {
    SplicedActs(r, v, beat, reply, turn, tick, similar);
  }

  lemma VerdictsAreNotDeadlines(s: Story, b: Input, w: Setting)
    requires s.roteiro.Some?
    ensures VerdictOf(s, b, w).reason != ActDeadline
  {
  }

  predicate SameActs(r: Roteiro, n: Roteiro) {
    n.acts == r.acts && n.actIndex == r.actIndex
  }

  lemma MaintainChanges(r: Roteiro, v: Verdict, beat: Option<RoteiroBeat>, reply: Reply, turn: int, tick: int, similar: Similar)
    requires r.actIndex <= |r.acts| && v.reason != ActDeadline
    ensures var m := MaintainBeat(r, v, beat, reply, turn, tick, similar);
            m.Maintained? ==>
              m.roteiro.Some?
              && (!SameActs(r, m.roteiro.value) <==> m.event.reset && (DeadlineDue(r, tick) || !IdleReplan(r, v, reply, similar)))
  {
    if beat.Some? {
      if DeadlineDue(r, tick) {
        DeadlineAdvances(r, beat.value, reply, turn, tick, similar);
      } else {
        ReplanChanges(r, v, beat.value, reply, turn, tick, similar);
      }
    }
  }

  /** A step changes acts or index exactly when it resets the counter other than by an idle replan. */
  lemma ResetOrIdle(s: Story, b: Input, w: Setting)
    requires ActsSane(s.roteiro)
    ensures Changed(s, b, w) <==> EventOf(s, b, w).reset && !Idle(s, b, w)
  {
    if s.roteiro.Some? && Commits(s, b, w) {
      Cases(s, b, w);
      VerdictsAreNotDeadlines(s, b, w);
      CountedResetOrIdle(s, b, w, Counted(s.roteiro.value, b.first), VerdictOf(s, b, w));
    }
  }

  lemma CountedResetOrIdle(s: Story, b: Input, w: Setting, r: Roteiro, v: Verdict)
    requires ActsSane(s.roteiro) && s.roteiro.Some? && Commits(s, b, w)
    requires r == Counted(s.roteiro.value, b.first) && v == VerdictOf(s, b, w) && v.reason != ActDeadline
    requires Outcome(s, b, w) == MaintainBeat(r, v, ValidateBeat(b.reply.beat, w.cast, w.controlled), b.reply,
                                              NextTurn(s.history), s.tick, w.similar)
    ensures Changed(s, b, w) <==> EventOf(s, b, w).reset && !Idle(s, b, w)
  {
    MaintainChanges(r, v, ValidateBeat(b.reply.beat, w.cast, w.controlled), b.reply, NextTurn(s.history), s.tick, w.similar);
    assert SameActs(s.roteiro.value, r) && DeadlineDue(r, s.tick) == DeadlineDue(s.roteiro.value, s.tick);
    assert IdleReplan(r, v, b.reply, w.similar) == IdleReplan(s.roteiro.value, v, b.reply, w.similar);
    assert Changed(s, b, w) <==> !SameActs(r, Outcome(s, b, w).roteiro.value);
  }

  lemma EventsSnoc(s: Story, bs: seq<Input>, w: Setting)
    requires bs != []
    ensures var n := |bs| - 1;
            && Events(s, bs, w)[..n] == Events(s, bs[..n], w)
            && Events(s, bs, w)[n] == EventOf(Run(s, bs[..n], w), bs[n], w)
  {
  }

  lemma EventsPrefix(s: Story, bs: seq<Input>, w: Setting, k: nat)
    requires k <= |bs|
    ensures Events(s, bs, w)[..k] == Events(s, bs[..k], w)
    decreases |bs|
  {
    if k == |bs| {
      assert bs[..k] == bs;
    } else {
      var n := |bs| - 1;
      EventsSnoc(s, bs, w);
      EventsPrefix(s, bs[..n], w, k);
      assert bs[..n][..k] == bs[..k];
      assert Events(s, bs, w)[..n][..k] == Events(s, bs, w)[..k];
    }
  }

  lemma EventAt(s: Story, bs: seq<Input>, w: Setting, i: nat)
    requires i < |bs|
    ensures Events(s, bs, w)[i] == EventOf(Run(s, bs[..i], w), bs[i], w)
  {
    EventsPrefix(s, bs, w, i + 1);
    var some := bs[..i + 1];
    EventsSnoc(s, some, w);
    assert some[..i] == bs[..i] && some[i] == bs[i];
    assert Events(s, some, w)[i] == Events(s, bs, w)[..i + 1][i];
  }

  predicate ChangedAt(s: Story, bs: seq<Input>, w: Setting, i: nat)
    requires i < |bs|
  {
    Changed(Run(s, bs[..i], w), bs[i], w)
  }

  predicate IdleAt(s: Story, bs: seq<Input>, w: Setting, i: nat)
    requires i < |bs|
  {
    ActsSane(Run(s, bs[..i], w).roteiro) && Idle(Run(s, bs[..i], w), bs[i], w)
  }

  /** Between three stall or drift beat replans the acts or the index really change, unless every
      escalation and act change there was an idle act-scope replan; at least one there is. */
  lemma EscalationIsReal(s: Story, bs: seq<Input>, w: Setting, i: nat, j: nat, k: nat)
    requires Replans(s.roteiro) == 0 && ActsSane(s.roteiro)
    requires i < j < k < |bs|
    requires Events(s, bs, w)[i].stall && Events(s, bs, w)[j].stall && Events(s, bs, w)[k].stall
    ensures (forall r | i < r < k :: !ChangedAt(s, bs, w, r)) <==>
              (exists r :: i < r < k && IdleAt(s, bs, w, r))
              && forall r | i < r < k && Events(s, bs, w)[r].reset :: IdleAt(s, bs, w, r)
  {
    forall r | i < r < k
      ensures ChangedAt(s, bs, w, r) <==> Events(s, bs, w)[r].reset && !IdleAt(s, bs, w, r)
    {
      EventAt(s, bs, w, r);
      StagedBelowIndex(s, bs[..r], w);
      ResetOrIdle(Run(s, bs[..r], w), bs[r], w);
    }
    ThirdStallEscalates(s, bs, w, i, j, k);
  }

  // ---- how long an act lasts -----------------------------------------------

  function Current(r: Roteiro): Option<RoteiroAct> {
    if r.actIndex < |r.acts| then Some(r.acts[r.actIndex]) else None
  }

  /** An act becomes the current one. */
  predicate Enters(s: Story, b: Input, w: Setting) {
    var n := Next(s, b, w).roteiro;
    && n.Some? && Current(n.value).Some?
    && (s.roteiro.None? || Current(s.roteiro.value).None? || n.value.actIndex != s.roteiro.value.actIndex)
  }

  /** It does so because a clock that had run out of acts was given new ones. */
  predicate Revives(s: Story, b: Input, w: Setting) {
    Enters(s, b, w) && s.roteiro.Some? && Next(s, b, w).roteiro.value.actIndex == s.roteiro.value.actIndex
  }

  lemma ReplanStarts(r: Roteiro, v: Verdict, beat: RoteiroBeat, reply: Reply, turn: int, tick: int, similar: Similar)
    ensures var n := Replan(r, v, beat, reply, turn, tick, similar);
            n.actStartedTick == if n.actIndex != r.actIndex then tick else r.actStartedTick
  {
  }

  lemma DeadlineStarts(r: Roteiro, beat: RoteiroBeat, reply: Reply, turn: int, tick: int, similar: Similar)
    ensures Deadline(r, beat, reply, turn, tick, similar).actStartedTick == tick
  {
  }

  /** An act that becomes current starts its clock at once; one that revives a stopped clock goes on with
      the tick at which it stopped, and so can be due the moment it begins. */
  lemma EntryStartsClock(s: Story, b: Input, w: Setting)
    requires ActsSane(s.roteiro)
    ensures var n := Next(s, b, w).roteiro;
            && (Enters(s, b, w) && !Revives(s, b, w) ==> n.value.actStartedTick == s.tick)
            && (Revives(s, b, w) ==>
                  && n.value.actStartedTick == s.roteiro.value.actStartedTick
                  && forall t :: DeadlineDue(n.value, t) <==>
                       Current(n.value).value.durationTicks > 0
                       && t - s.roteiro.value.actStartedTick >= Current(n.value).value.durationTicks)
            && (n.Some? && Current(n.value).Some? && !Enters(s, b, w) ==>
                  n.value.actStartedTick == s.roteiro.value.actStartedTick)
  {
    if s.roteiro.Some? && Commits(s, b, w) {
      Cases(s, b, w);
      var r := Counted(s.roteiro.value, b.first);
      var beat := ValidateBeat(b.reply.beat, w.cast, w.controlled);
      var v := VerdictOf(s, b, w);
      if DeadlineDue(r, s.tick) {
        DeadlineAdvances(r, beat.value, b.reply, NextTurn(s.history), s.tick, w.similar);
        DeadlineStarts(r, beat.value, b.reply, NextTurn(s.history), s.tick, w.similar);
      } else if !v.decision.Stay? {
        ReplanKeepsPlayed(r, v, beat.value, b.reply, NextTurn(s.history), s.tick, w.similar);
        ReplanStarts(r, v, beat.value, b.reply, NextTurn(s.history), s.tick, w.similar);
      }
    }
  }

  /** The tick at which the current act of a run became current. */
  function EnteredTick(s: Story, bs: seq<Input>, w: Setting): int {
    if bs == [] then (if s.roteiro.Some? then s.roteiro.value.actStartedTick else s.tick)
    else
      var before := Run(s, bs[..|bs| - 1], w);
      if Enters(before, bs[|bs| - 1], w) then before.tick else EnteredTick(s, bs[..|bs| - 1], w)
  }

  /** The current act of a run revived a stopped clock. */
  predicate Revived(s: Story, bs: seq<Input>, w: Setting) {
    bs != [] &&
    var before := Run(s, bs[..|bs| - 1], w);
    if Enters(before, bs[|bs| - 1], w) then Revives(before, bs[|bs| - 1], w) else Revived(s, bs[..|bs| - 1], w)
  }

  lemma {:induction false} ActClock(s: Story, bs: seq<Input>, w: Setting)
    requires ActsSane(s.roteiro)
    ensures var n := Run(s, bs, w).roteiro;
            n.Some? && Current(n.value).Some? && !Revived(s, bs, w) ==> n.value.actStartedTick == EnteredTick(s, bs, w)
  {
    if bs != [] {
      var n := |bs| - 1;
      ActClock(s, bs[..n], w);
      StagedBelowIndex(s, bs[..n], w);
      EntryStartsClock(Run(s, bs[..n], w), bs[n], w);
    }
  }

  lemma StagedIsDue(s: Story, b: Input, w: Setting)
    requires EventOf(s, b, w).staged.Some?
    ensures s.roteiro.Some? && DeadlineDue(s.roteiro.value, s.tick)
  {
    Cases(s, b, w);
  }

  /** No act's world event is staged before the act has been current for its duration, unless the act
      revived a stopped clock. */
  lemma StagedOnTime(s: Story, bs: seq<Input>, w: Setting, i: nat)
    requires ActsSane(s.roteiro) && i < |bs| && Events(s, bs, w)[i].staged.Some?
    ensures var now := Run(s, bs[..i], w);
            && now.roteiro.Some? && Current(now.roteiro.value).Some?
            && (!Revived(s, bs[..i], w) ==>
                  now.tick - EnteredTick(s, bs[..i], w) >= Current(now.roteiro.value).value.durationTicks)
  {
    EventAt(s, bs, w, i);
    StagedIsDue(Run(s, bs[..i], w), bs[i], w);
    ActClock(s, bs[..i], w);
  }
}
