/** How many turns a beat can be heard on when compactions evict some of them: the action clock bounds what the
    turn clock cannot see. */
module StoryBounds {
  import opened Wrappers
  import opened Model
  import opened History
  import opened StoryClock
  import opened StoryTheorems
  import opened StoryUndo
  import opened StoryHeard
  import Ints

  // ---- submissions ---------------------------------------------------------

  /** The last step is a beat that was saved, so the burst it belongs to may go on. */
  predicate InBurst(s: Story, acts: seq<Action>, w: Setting) {
    && acts != [] && acts[|acts| - 1].Play?
    && Commits(After(s, acts[..|acts| - 1], w), acts[|acts| - 1].beat, w)
  }

  /** Every beat that does not go on with a burst opens a player action: the first one of a run, and the one
      after a compaction, an undo, or a beat that was not saved. */
  predicate Submits(s: Story, acts: seq<Action>, w: Setting) {
    acts == [] ||
    var earlier, a := acts[..|acts| - 1], acts[|acts| - 1];
    Submits(s, earlier, w) && (a.Play? && !InBurst(s, earlier, w) ==> a.beat.first)
  }

  predicate NoUndo(acts: seq<Action>) {
    acts == [] || (NoUndo(acts[..|acts| - 1]) && !acts[|acts| - 1].TakeBack?)
  }

  /** A compaction leaves at least `k` turns on which something was heard. */
  predicate Retains(s: Story, a: Action, k: nat) {
    a.Evict? && a.n <= |s.history| ==> |Turns(s.history[a.n..], 1)| >= k
  }

  predicate AllRetain(s: Story, acts: seq<Action>, k: nat, w: Setting) {
    acts == [] || (AllRetain(s, acts[..|acts| - 1], k, w) && Retains(After(s, acts[..|acts| - 1], w), acts[|acts| - 1], k))
  }

  // ---- what the numbers say of the log -------------------------------------

  /** Turn numbers only grow, and those from the beat's start on are those of the records since its birth. */
  ghost predicate Orderly(t: Timeline) {
    && Sized(t) && Ceiling(t.story) && Chronological(t.story.history)
    && (forall i | 0 <= i < |Log(t)| :: 1 <= Log(t)[i].turn < NextTurn(t.story.history))
    && (t.story.roteiro.Some? ==> SinceBirth(t, t.story.roteiro.value))
  }

  /** The records from index `born` on are those numbered from `since` on. */
  ghost predicate BornAt(log: Records, born: nat, since: int) {
    born <= |log| && forall i | 0 <= i < |log| :: log[i].turn >= since <==> i >= born
  }

  ghost predicate SinceBirth(t: Timeline, r: Roteiro) {
    && r.beat.Some? && 0 <= r.beatActionsElapsed
    && r.beatStartedTurn <= NextTurn(t.story.history) && BornAt(Log(t), t.born, r.beatStartedTurn)
  }

  /** So the turns heard on the beat can be told by their numbers. */
  lemma HeardByNumber(t: Timeline)
    requires Orderly(t) && t.story.roteiro.Some?
    ensures Heard(t) == Turns(Log(t), t.story.roteiro.value.beatStartedTurn)
  {
  }

  lemma TurnsMore(h: Records, added: Records, since: int)
    requires forall i | 0 <= i < |added| :: added[i].turn == NextTurn(h)
    ensures Turns(h + added, since) == Turns(h, since) + Turns(added, since)
    ensures Turns(added, since) <= {NextTurn(h)}
  {
    var all := h + added;
    forall t | t in Turns(h, since) ensures t in Turns(all, since) {
      var i :| 0 <= i < |h| && Counts(h[i], since) && h[i].turn == t;
      assert all[i] == h[i];
    }
    forall t | t in Turns(added, since) ensures t in Turns(all, since) {
      var i :| 0 <= i < |added| && Counts(added[i], since) && added[i].turn == t;
      assert all[|h| + i] == added[i];
    }
    forall t | t in Turns(all, since) ensures t in Turns(h, since) + Turns(added, since) {
      var i :| 0 <= i < |all| && Counts(all[i], since) && all[i].turn == t;
      if i < |h| { assert all[i] == h[i]; } else { assert all[i] == added[i - |h|]; }
    }
  }

  lemma ChronologicalMore(h: Records, added: Records)
    requires Chronological(h) && forall i | 0 <= i < |added| :: added[i].turn == NextTurn(h)
    ensures Chronological(h + added)
  {
    var all := h + added;
    forall i, j | 0 <= i < j < |all| ensures all[i].turn <= all[j].turn {
      if i < |h| <= j { assert h[i].turn <= h[|h| - 1].turn; }
    }
  }

  /** The new log after a beat. */
  lemma PlayLog(t: Timeline, b: Input, w: Setting)
    requires Sized(t) && Allowed(t.story, Play(b)) && Commits(t.story, b, w)
    ensures var n := Advanced(t, Play(b), w);
            && n.story.history == t.story.history + (b.player + b.rest) && Log(n) == Log(t) + (b.player + b.rest)
  {
    PlayGrows(t, b, w);
    LogGrows(t, b.player + b.rest, Advanced(t, Play(b), w));
  }

  /** What a maintenance step that saves leaves of the screenplay: a beat born on this turn with no action
      spent, or the one it found with this action counted. */
  lemma BornOrKept(s: Story, b: Input, w: Setting)
    requires Commits(s, b, w)
    ensures Next(s, b, w).roteiro.Some?
    ensures var n := Next(s, b, w).roteiro.value;
            if Begins(s, b, w) then
              n.beat.Some? && n.beatStartedTurn == NextTurn(s.history) && n.beatActionsElapsed == 0
            else
              s.roteiro.Some? && n == Counted(s.roteiro.value, b.first).(anchorsSeen := n.anchorsSeen)
  {
    if s.roteiro.Some? { Cases(s, b, w); }
  }

  lemma PlayOrderly(t: Timeline, b: Input, w: Setting)
    requires Orderly(t) && Allowed(t.story, Play(b))
    ensures Orderly(Advanced(t, Play(b), w))
  {
    if Commits(t.story, b, w) {
      var n := Advanced(t, Play(b), w);
      NextKeepsCeiling(t.story, b, w);
      PlayLog(t, b, w);
      ChronologicalMore(t.story.history, b.player + b.rest);
      NumberedMore(t.story.history, b.player + b.rest);
      LaterNumbers(t.story.history, b.player + b.rest);
      BornOrKept(t.story, b, w);
      AdvancedSized(t, Play(b), w);
      PlaySinceBirth(t, b, w);
    }
  }

  lemma LaterNumbers(h: Records, added: Records)
    requires Numbered(h) && forall i | 0 <= i < |added| :: added[i].turn == NextTurn(h)
    ensures NextTurn(h) <= NextTurn(h + added)
  {
    if added == [] { assert h + added == h; } else { NumberedMore(h, added); }
  }

  lemma BornMore(log: Records, added: Records, born: nat, since: int, turn: int)
    requires BornAt(log, born, since) && since <= turn && forall i | 0 <= i < |added| :: added[i].turn == turn
    ensures BornAt(log + added, born, since)
  {
    var all := log + added;
    forall i | 0 <= i < |all| ensures all[i].turn >= since <==> i >= born {
      if i < |log| { assert all[i] == log[i]; } else { assert all[i] == added[i - |log|]; }
    }
  }

  lemma PlaySinceBirth(t: Timeline, b: Input, w: Setting)
    requires Orderly(t) && Allowed(t.story, Play(b)) && Commits(t.story, b, w)
    ensures var n := Advanced(t, Play(b), w);
            && n.story.roteiro.Some?
            && SinceBirth(n, n.story.roteiro.value)
  {
    var added, turn := b.player + b.rest, NextTurn(t.story.history);
    PlayLog(t, b, w);
    BornOrKept(t.story, b, w);
    LaterNumbers(t.story.history, added);
    if Begins(t.story, b, w) {
      BornMore(Log(t), added, |Log(t)|, turn, turn);
    } else {
      BornMore(Log(t), added, t.born, t.story.roteiro.value.beatStartedTurn, turn);
    }
  }

  lemma EvictLog(t: Timeline, n: nat)
    requires Sized(t) && n < |t.story.history|
    ensures Log(Shortened(t, n)) == Log(t) && NextTurn(Shortened(t, n).story.history) == NextTurn(t.story.history)
  {
    var h := t.story.history;
    assert h == h[..n] + h[n..] && h[n..][|h| - n - 1] == h[|h| - 1];
  }

  lemma EvictOrderly(t: Timeline, n: nat, w: Setting)
    requires Orderly(t) && Allowed(t.story, Evict(n))
    ensures Orderly(Advanced(t, Evict(n), w)) && Log(Advanced(t, Evict(n), w)) == Log(t)
    ensures NextTurn(Advanced(t, Evict(n), w).story.history) == NextTurn(t.story.history)
  {
    EvictLog(t, n);
    FewerCeiling(t.story, n);
    assert Advanced(t, Evict(n), w) == Shortened(t, n);
  }

  lemma FewerCeiling(s: Story, n: nat)
    requires Ceiling(s) && n < |s.history|
    ensures Ceiling(s.(history := s.history[n..]))
  {
    var h, rest := s.history, s.history[n..];
    forall i | 0 <= i < |rest| ensures 1 <= rest[i].turn < NextTurn(rest) { assert rest[i] == h[n + i]; }
    if s.roteiro.Some? {
      FewerTurns(h, n, s.roteiro.value.beatStartedTurn);
      Ints.SubsetSize(Turns(rest, s.roteiro.value.beatStartedTurn), Turns(h, s.roteiro.value.beatStartedTurn));
    }
  }

  lemma FewerTurns(h: Records, n: nat, since: int)
    requires n <= |h|
    ensures Turns(h[n..], since) <= Turns(h, since)
  {
    forall t | t in Turns(h[n..], since) ensures t in Turns(h, since) {
      var i :| 0 <= i < |h[n..]| && Counts(h[n..][i], since) && h[n..][i].turn == t;
      assert h[n + i] == h[n..][i];
    }
  }

  // ---- the budget of heard turns -------------------------------------------

  /** The player actions after which a beat stalls. */
  function StallAt(r: Roteiro): int
    requires r.beat.Some?
  {
    Min(r.beat.value.budgetTurns, HARD_BEAT_ACTION_CAP)
  }

  /** The heard turns `e` player actions can hide from the turn clock, if every compaction retains `k`. */
  function Hidden(k: nat, e: int): int {
    if k <= 1 then 2 * e else if k == 2 then e else 0
  }

  /** The most turns a beat is heard on. */
  function HeardCap(k: nat, stallAt: int): int {
    HARD_BEAT_TURN_CAP + Hidden(k, Max(1, stallAt) - 1)
  }

  function HeardTurns(t: Timeline): set<int>
    requires t.story.roteiro.Some?
  {
    Turns(Log(t), t.story.roteiro.value.beatStartedTurn)
  }

  function LiveTurns(t: Timeline): set<int>
    requires t.story.roteiro.Some?
  {
    Turns(t.story.history, t.story.roteiro.value.beatStartedTurn)
  }

  predicate NewestCounts(t: Timeline)
    requires t.story.roteiro.Some?
  {
    NextTurn(t.story.history) - 1 in LiveTurns(t)
  }

  /** What of the counted turns the next compaction is sure to leave. */
  function Left(t: Timeline, k: nat): int
    requires t.story.roteiro.Some?
  {
    if k <= 1 then (if NewestCounts(t) then 1 else 0) else Min(|LiveTurns(t)|, k)
  }

  /** Inside a burst: past turns are paid for by the actions spent so far. */
  ghost predicate PaidNow(t: Timeline, k: nat)
    requires t.story.roteiro.Some? && t.story.roteiro.value.beat.Some?
  {
    var r := t.story.roteiro.value;
    if r.beatActionsElapsed < StallAt(r) then
      && |HeardTurns(t)| <= Hidden(k, r.beatActionsElapsed) + |LiveTurns(t)|
      && (|LiveTurns(t)| >= HARD_BEAT_TURN_CAP ==> NewestCounts(t))
    else |HeardTurns(t)| <= 2
  }

  /** Between bursts: they will be paid for by the next action, whatever a compaction takes away. */
  ghost predicate PaidNext(t: Timeline, k: nat)
    requires t.story.roteiro.Some? && t.story.roteiro.value.beat.Some?
  {
    var r := t.story.roteiro.value;
    if r.beatActionsElapsed < StallAt(r) then |HeardTurns(t)| <= Hidden(k, r.beatActionsElapsed + 1) + Left(t, k)
    else |HeardTurns(t)| <= 2
  }

  ghost predicate Paid(t: Timeline, k: nat, burst: bool) {
    && Orderly(t)
    && (t.story.roteiro.Some? ==> PaidNext(t, k) && (burst ==> PaidNow(t, k)))
  }

  lemma NowIsNext(t: Timeline, k: nat)
    requires Orderly(t) && t.story.roteiro.Some? && PaidNow(t, k)
    ensures PaidNext(t, k)
  {
  }

  lemma LeftIsLive(t: Timeline, k: nat)
    requires t.story.roteiro.Some?
    ensures Left(t, k) <= |LiveTurns(t)|
  {
    if NewestCounts(t) { Ints.SubsetSize({NextTurn(t.story.history) - 1}, LiveTurns(t)); }
  }

  /** The bound an orderly, paid timeline satisfies. */
  lemma PaidIsBounded(t: Timeline, k: nat, burst: bool)
    requires Paid(t, k, burst) && t.story.roteiro.Some?
    ensures |Heard(t)| <= HeardCap(k, StallAt(t.story.roteiro.value))
  {
    HeardByNumber(t);
  }

  // ---- a beat --------------------------------------------------------------

  lemma BirthPaid(t: Timeline, b: Input, k: nat, w: Setting)
    requires Orderly(t) && Allowed(t.story, Play(b)) && Begins(t.story, b, w)
    ensures var n := Advanced(t, Play(b), w);
            Orderly(n) && n.story.roteiro.Some? && PaidNow(n, k)
  {
    var n, added := Advanced(t, Play(b), w), b.player + b.rest;
    PlayOrderly(t, b, w);
    BornOrKept(t.story, b, w);
    PlayLog(t, b, w);
    var turn := NextTurn(t.story.history);
    assert Turns(Log(t), turn) == {} && Turns(t.story.history, turn) == {};
    TurnsMore(t.story.history, added, turn);
    LogMore(t, added, turn);
    Ints.SubsetSize(Turns(added, turn), {turn});
  }

  /** The same for the log, whose numbers also end below the next one. */
  lemma LogMore(t: Timeline, added: Records, since: int)
    requires Orderly(t) && forall i | 0 <= i < |added| :: added[i].turn == NextTurn(t.story.history)
    ensures Turns(Log(t) + added, since) == Turns(Log(t), since) + Turns(added, since)
    ensures NextTurn(t.story.history) !in Turns(Log(t), since)
    ensures NextTurn(t.story.history) !in Turns(t.story.history, since)
  {
    LogNext(t);
    if Log(t) != [] { TurnsMore(Log(t), added, since); } else { assert Log(t) + added == added; }
  }

  lemma LogNext(t: Timeline)
    requires Orderly(t)
    ensures t.story.history != [] ==> NextTurn(Log(t)) == NextTurn(t.story.history)
  {
    if t.story.history != [] { assert Log(t)[|Log(t)| - 1] == t.story.history[|t.story.history| - 1]; }
  }

  lemma KeptSets(t: Timeline, b: Input, w: Setting)
    requires Orderly(t) && Allowed(t.story, Play(b)) && Commits(t.story, b, w) && !Begins(t.story, b, w)
    ensures var n, added := Advanced(t, Play(b), w), b.player + b.rest;
            && t.story.roteiro.Some? && n.story.roteiro.Some?
            && n.story.history == t.story.history + added
            && var newer := Turns(added, t.story.roteiro.value.beatStartedTurn);
            && HeardTurns(n) == HeardTurns(t) + newer && LiveTurns(n) == LiveTurns(t) + newer
            && newer <= {NextTurn(t.story.history)}
            && NextTurn(t.story.history) !in HeardTurns(t) && NextTurn(t.story.history) !in LiveTurns(t)
  {
    var added := b.player + b.rest;
    BornOrKept(t.story, b, w);
    PlayLog(t, b, w);
    var since := t.story.roteiro.value.beatStartedTurn;
    TurnsMore(t.story.history, added, since);
    LogMore(t, added, since);
  }

  lemma NewestOfMore(h: Records, added: Records, since: int)
    requires Numbered(h) && (forall i | 0 <= i < |added| :: added[i].turn == NextTurn(h)) && Turns(added, since) != {}
    ensures Turns(added, since) == {NextTurn(h)} && NextTurn(h + added) == NextTurn(h) + 1
  {
    var m := Ints.Member(Turns(added, since));
    NumberedMore(h, added);
  }

  /** A beat that is kept counts the new turn, if it is heard at all, in the log and live alike. */
  lemma KeptTurns(t: Timeline, b: Input, w: Setting)
    requires Orderly(t) && Allowed(t.story, Play(b)) && Commits(t.story, b, w) && !Begins(t.story, b, w)
    ensures var n, turn := Advanced(t, Play(b), w), NextTurn(t.story.history);
            && t.story.roteiro.Some? && n.story.roteiro.Some?
            && turn !in HeardTurns(t) && turn !in LiveTurns(t)
            && ((HeardTurns(n) == HeardTurns(t) && LiveTurns(n) == LiveTurns(t))
                || (HeardTurns(n) == HeardTurns(t) + {turn} && LiveTurns(n) == LiveTurns(t) + {turn}
                    && NewestCounts(n)))
  {
    KeptSets(t, b, w);
    var added, since := b.player + b.rest, t.story.roteiro.value.beatStartedTurn;
    if Turns(added, since) == {} {
      assert HeardTurns(t) + {} == HeardTurns(t) && LiveTurns(t) + {} == LiveTurns(t);
    } else {
      NewestOfMore(t.story.history, added, since);
    }
  }

  /** Keeping it means that its turns left room, and that its actions have not run out or its cooldown is not
      over. */
  lemma KeptEarly(t: Timeline, b: Input, w: Setting)
    requires Orderly(t) && Allowed(t.story, Play(b)) && Commits(t.story, b, w) && !Begins(t.story, b, w)
    ensures t.story.roteiro.Some?
    ensures var r, h := Counted(t.story.roteiro.value, b.first), t.story.history + b.player;
            && |Turns(h, r.beatStartedTurn)| < HARD_BEAT_TURN_CAP
            && (r.beatActionsElapsed < StallAt(r) || NextTurn(h) < r.cooldownUntilTurn)
  {
    Cases(t.story, b, w);
    var r, h := Counted(t.story.roteiro.value, b.first), t.story.history + b.player;
    AllTurns(t.story, b);
    NumberedMore(t.story.history, b.player);
    StayLeavesRoom(r, h, w.controlled, w.matched);
  }

  /** A cooldown that is not over leaves at most the turn of the birth and the next one. */
  lemma CoolTurns(t: Timeline, b: Input, w: Setting)
    requires Orderly(t) && Allowed(t.story, Play(b)) && Commits(t.story, b, w) && !Begins(t.story, b, w)
    requires t.story.roteiro.Some? && NextTurn(t.story.history + b.player) < t.story.roteiro.value.cooldownUntilTurn
    ensures var n := Advanced(t, Play(b), w); n.story.roteiro.Some? && |HeardTurns(n)| <= 2
  {
    KeptTurns(t, b, w);
    AllTurns(t.story, b);
    LaterNumbers(t.story.history, b.player);
    var since := t.story.roteiro.value.beatStartedTurn;
    var n := Advanced(t, Play(b), w);
    forall m | m in HeardTurns(n) ensures since <= m < since + 2 {
      if m in HeardTurns(t) {
        var i :| 0 <= i < |Log(t)| && Counts(Log(t)[i], since) && Log(t)[i].turn == m;
      }
    }
    Ints.IntervalSize(HeardTurns(n), since, since + 2);
  }

  /** Where the turn count reaches the cap, the new turn is the last of the counted ones. */
  lemma CapIsNewest(t: Timeline, b: Input, w: Setting)
    requires Orderly(t) && Allowed(t.story, Play(b)) && Commits(t.story, b, w) && !Begins(t.story, b, w)
    ensures var n := Advanced(t, Play(b), w);
            n.story.roteiro.Some? && (|LiveTurns(n)| >= HARD_BEAT_TURN_CAP ==> NewestCounts(n))
  {
    KeptTurns(t, b, w);
    KeptEarly(t, b, w);
    AllTurns(t.story, b);
    var since := t.story.roteiro.value.beatStartedTurn;
    TurnsMore(t.story.history, b.player, since);
    Ints.SubsetSize(LiveTurns(t), Turns(t.story.history + b.player, since));
  }

  lemma KeptPaid(t: Timeline, b: Input, k: nat, burst: bool, w: Setting)
    requires Paid(t, k, burst) && (burst || b.first)
    requires Allowed(t.story, Play(b)) && Commits(t.story, b, w) && !Begins(t.story, b, w)
    ensures var n := Advanced(t, Play(b), w);
            Orderly(n) && n.story.roteiro.Some? && PaidNow(n, k)
  {
    var n := Advanced(t, Play(b), w);
    PlayOrderly(t, b, w);
    KeptTurns(t, b, w);
    KeptEarly(t, b, w);
    BornOrKept(t.story, b, w);
    CapIsNewest(t, b, w);
    LeftIsLive(t, k);
    if n.story.roteiro.value.beatActionsElapsed >= StallAt(n.story.roteiro.value) {
      CoolTurns(t, b, w);
    }
  }

  lemma PlayPaid(t: Timeline, b: Input, k: nat, burst: bool, w: Setting)
    requires Paid(t, k, burst) && (burst || b.first) && Allowed(t.story, Play(b))
    ensures Paid(Advanced(t, Play(b), w), k, Commits(t.story, b, w))
  {
    if Commits(t.story, b, w) {
      if Begins(t.story, b, w) { BirthPaid(t, b, k, w); } else { KeptPaid(t, b, k, burst, w); }
      NowIsNext(Advanced(t, Play(b), w), k);
    }
  }

  // ---- a compaction --------------------------------------------------------

  /** The newest turn is never cut. */
  lemma NewestStays(h: Records, n: nat, since: int)
    requires Chronological(h) && Opens(h, n) && NextTurn(h) - 1 in Turns(h, since)
    ensures NextTurn(h) - 1 in Turns(h[n..], since)
  {
    forall i | 0 <= i < n ensures h[i].turn < h[|h| - 1].turn {
      assert h[i].turn <= h[n - 1].turn < h[n].turn <= h[|h| - 1].turn;
    }
    var i :| 0 <= i < |h| && Counts(h[i], since) && h[i].turn == NextTurn(h) - 1;
    assert h[n..][i - n] == h[i];
  }

  /** A window with `k` heard turns keeps the `k` newest counted ones. */
  lemma WindowKeeps(h: Records, n: nat, since: int, k: nat)
    requires Chronological(h) && Numbered(h) && n <= |h| && |Turns(h[n..], 1)| >= k
    ensures |Turns(h[n..], since)| >= Min(|Turns(h, since)|, k)
  {
    var rest := h[n..];
    if i :| 0 <= i < n && Counts(h[i], since) {
      forall m | m in Turns(rest, 1) ensures m in Turns(rest, since) {
        var j :| 0 <= j < |rest| && Counts(rest[j], 1) && rest[j].turn == m;
        assert rest[j] == h[n + j] && h[i].turn <= h[n + j].turn;
      }
      Ints.SubsetSize(Turns(rest, 1), Turns(rest, since));
    } else {
      forall m | m in Turns(h, since) ensures m in Turns(rest, since) {
        var j :| 0 <= j < |h| && Counts(h[j], since) && h[j].turn == m;
        assert rest[j - n] == h[j];
      }
      Ints.SubsetSize(Turns(h, since), Turns(rest, since));
    }
  }

  lemma EvictPaid(t: Timeline, n: nat, k: nat, burst: bool, w: Setting)
    requires Paid(t, k, burst) && Allowed(t.story, Evict(n)) && Retains(t.story, Evict(n), k)
    ensures Paid(Advanced(t, Evict(n), w), k, false)
  {
    EvictOrderly(t, n, w);
    if t.story.roteiro.Some? {
      var since := t.story.roteiro.value.beatStartedTurn;
      WindowKeeps(t.story.history, n, since, k);
      if NewestCounts(t) { NewestStays(t.story.history, n, since); }
    }
  }

  // ---- whole runs ----------------------------------------------------------

  /** A story whose screenplay is still to be written. */
  ghost predicate Unwritten(t: Timeline) {
    Orderly(t) && t.story.roteiro.None?
  }

  lemma {:induction false} RunPaid(t: Timeline, acts: seq<Action>, k: nat, w: Setting)
    requires Unwritten(t) && AllAllowed(t.story, acts, w) && NoUndo(acts) && Submits(t.story, acts, w)
    requires AllRetain(t.story, acts, k, w)
    ensures Unrolled(t, acts, w).Some? && Paid(Unrolled(t, acts, w).value, k, InBurst(t.story, acts, w))
  {
    if acts != [] {
      var n := |acts| - 1;
      RunPaid(t, acts[..n], k, w);
      UnrolledFollows(t, acts[..n], w);
      UnrolledNext(t, acts, w);
      var before := Unrolled(t, acts[..n], w).value;
      match acts[n]
      case Play(b) => PlayPaid(before, b, k, InBurst(t.story, acts[..n], w), w);
      case Evict(m) => EvictPaid(before, m, k, InBurst(t.story, acts[..n], w), w);
    }
  }

  /** Over every run of player actions and compactions: if each compaction retains `k` heard turns, a beat that
      stalls after `n` player actions is heard on at most 3 turns plus, for each further action, the turns a
      compaction may have hidden: 7 at most with windows of any size, 5 if two heard turns are always retained,
      and 3 if three are. */
  lemma HeardIsBounded(t: Timeline, acts: seq<Action>, k: nat, w: Setting)
    requires Unwritten(t) && AllAllowed(t.story, acts, w) && NoUndo(acts) && Submits(t.story, acts, w)
    requires AllRetain(t.story, acts, k, w)
    ensures var now := Unrolled(t, acts, w);
            && now.Some? && now.value.story == After(t.story, acts, w)
            && (now.value.story.roteiro.Some? ==>
                  && now.value.story.roteiro.value.beat.Some?
                  && |Heard(now.value)| <= HeardCap(k, StallAt(now.value.story.roteiro.value))
                  && |Heard(now.value)| <= (if k <= 1 then 7 else if k == 2 then 5 else 3))
  {
    RunPaid(t, acts, k, w);
    UnrolledFollows(t, acts, w);
    var now := Unrolled(t, acts, w).value;
    if now.story.roteiro.Some? {
      PaidIsBounded(now, k, InBurst(t.story, acts, w));
    }
  }

  // ---- the bound is reached ------------------------------------------------

  /** A new session. */
  function Beginning(tick: int): Timeline {
    Timeline(Story(None, tick, []), [], 0, [])
  }

  /** The first beat of a session, which waits for a lamp. */
  function FirstBeat(tick: int, actions: int): Roteiro {
    Roteiro("p", [RoteiroAct("a", "an act", "", 0, "")], 0, Some(RoteiroBeat("b", "intent", [], ["lamp"], "", 6)),
            1, tick, [], actions, 0, 0, [])
  }

  /** A planner that offers that beat whenever it is asked. */
  function Planner(): Reply {
    Reply(Some(RawBeat("b", "intent", [], ["lamp"], "", None)), false, [RawAct("a", "an act", "", None, "")], "p")
  }

  /** A beat of a skip in which a character speaks. */
  function Spoken(before: World, s: Story, first: bool): Input {
    Input([], first, Planner(), [TurnRecord(NextTurn(s.history), "Ana", [], Speech, None, Zone,
                                            before.(roteiro := s.roteiro, tick := s.tick))], 0, [], true)
  }

  /** `n` turns have been heard since the first beat began, `past` of them are evicted, and `actions` player
      actions were spent on it. */
  ghost predicate Waiting(t: Timeline, tick: int, actions: int, past: nat, n: nat) {
    && Sized(t) && t.born == 0 && past < n && |t.past| == past && |Log(t)| == n
    && t.story.roteiro == Some(FirstBeat(tick, actions))
    && forall i | 0 <= i < n :: Log(t)[i].turn == i + 1 && Log(t)[i].kind == Speech
  }

  lemma LiveIs(t: Timeline, tick: int, actions: int, past: nat, n: nat)
    requires Waiting(t, tick, actions, past, n)
    ensures |t.story.history| == n - past && NextTurn(t.story.history) == n + 1
    ensures forall i | 0 <= i < n - past :: t.story.history[i].turn == past + i + 1 && t.story.history[i].kind == Speech
  {
    assert forall i | 0 <= i < n - past :: t.story.history[i] == Log(t)[past + i];
  }

  lemma {:induction false} CountUp(h: Records, start: int, since: int)
    requires since <= start && forall i | 0 <= i < |h| :: h[i].turn == start + i && h[i].kind == Speech
    ensures |Turns(h, since)| == |h| && forall m | m in Turns(h, since) :: m < start + |h|
  {
    if h != [] {
      var n := |h| - 1;
      CountUp(h[..n], start, since);
      var last := [h[n]];
      assert h == h[..n] + last;
      TurnsSnoc(h[..n], h[n], since);
    }
  }

  lemma TurnsSnoc(h: Records, r: TurnRecord, since: int)
    requires Counts(r, since)
    ensures Turns(h + [r], since) == Turns(h, since) + {r.turn}
  {
    var all := h + [r];
    assert all[|h|] == r;
    forall m | m in Turns(h, since) ensures m in Turns(all, since) {
      var i :| 0 <= i < |h| && Counts(h[i], since) && h[i].turn == m;
      assert all[i] == h[i];
    }
    forall m | m in Turns(all, since) ensures m in Turns(h, since) + {r.turn} {
      var i :| 0 <= i < |all| && Counts(all[i], since) && all[i].turn == m;
      if i < |h| { assert all[i] == h[i]; }
    }
  }

  lemma PlannedBeat(w: Setting)
    ensures ValidateBeat(Planner().beat, w.cast, w.controlled) == Some(RoteiroBeat("b", "intent", [], ["lamp"], "", 6))
  {
    var raw := Planner().beat.value;
    assert ["lamp"][..0] == [] && Distinct([]) == [];
    assert Distinct(["lamp"]) == ["lamp"];
    assert ["lamp"][1..] == [];
    assert Where(["lamp"], a => a != "") == ["lamp"];
    assert raw.actors == [] && Distinct(raw.actors) == [];
    assert Where(Distinct(raw.actors), a => a in w.cast && a != w.controlled) == [];
  }

  lemma PlannedActs()
    ensures ValidateActs(FirstFive(Planner().acts)) == [RoteiroAct("a", "an act", "", 0, "")]
  {
    assert Planner().acts[1..] == [];
    assert ValidateActs([]) == [];
  }

  lemma OpeningPlay(before: World, tick: int, w: Setting) returns (b: Input)
    ensures b.first && Allowed(Beginning(tick).story, Play(b)) && Commits(Beginning(tick).story, b, w)
    ensures Waiting(Advanced(Beginning(tick), Play(b), w), tick, 0, 0, 1)
  {
    var t := Beginning(tick);
    b := Spoken(before, t.story, true);
    PlannedBeat(w);
    PlannedActs();
    assert Outcome(t.story, b, w) == Maintained(Some(FirstBeat(tick, 0)), Event(None, false, true));
    assert b.player + b.rest == b.rest;
    PlayLog(t, b, w);
    AdvancedSized(t, Play(b), w);
    assert Log(t) == [] && [] + b.rest == b.rest;
    assert FirstBeat(tick, 0).anchorsSeen + [] == FirstBeat(tick, 0).anchorsSeen;
  }

  lemma FirstBeatStays(h: Records, tick: int, actions: int, w: Setting)
    requires (forall text :: !w.matched("lamp", text)) && actions < HARD_BEAT_ACTION_CAP
    requires |Turns(h, 1)| < HARD_BEAT_TURN_CAP
    ensures Evaluate(FirstBeat(tick, actions), h, w.controlled, NextTurn(h), w.matched) == Verdict(Stay, InProgress)
  {
    var r := FirstBeat(tick, actions);
    var beat := r.beat.value;
    assert forall a | a in beat.anchors :: !AnchorHit(r, h, a, w.matched);
    NothingKept(beat.anchors, a => AnchorHit(r, h, a, w.matched));
    WhereExact(beat.anchors, a => !AnchorHit(r, h, a, w.matched));
    assert "lamp" in beat.anchors && "lamp" in AnchorsMissing(r, h, w.matched);
  }

  lemma SpokenStays(before: World, t: Timeline, tick: int, actions: int, past: nat, n: nat, first: bool, w: Setting)
    requires (forall text :: !w.matched("lamp", text)) && Waiting(t, tick, actions, past, n) && n - past < HARD_BEAT_TURN_CAP
    requires actions + (if first then 1 else 0) < HARD_BEAT_ACTION_CAP
    ensures var b := Spoken(before, t.story, first);
            && Commits(t.story, b, w) && !Begins(t.story, b, w)
            && Next(t.story, b, w).roteiro == Some(FirstBeat(tick, actions + if first then 1 else 0))
  {
    var s, b := t.story, Spoken(before, t.story, first);
    LiveIs(t, tick, actions, past, n);
    CountUp(s.history, past + 1, 1);
    assert s.history + b.player == s.history;
    var counted := Counted(s.roteiro.value, first);
    assert counted == FirstBeat(tick, actions + if first then 1 else 0);
    FirstBeatStays(s.history, tick, counted.beatActionsElapsed, w);
    Cases(s, b, w);
    assert counted.anchorsSeen + [] == counted.anchorsSeen;
  }

  lemma WaitingMore(t: Timeline, tick: int, actions: int, past: nat, n: nat, r: TurnRecord, more: int, t': Timeline)
    requires Waiting(t, tick, actions, past, n) && r.turn == n + 1 && r.kind == Speech
    requires Sized(t') && t'.born == 0 && t'.past == t.past && Log(t') == Log(t) + [r] && t'.story.roteiro == Some(FirstBeat(tick, more))
    ensures Waiting(t', tick, more, past, n + 1)
  {
  }

  lemma WaitingPlay(before: World, t: Timeline, tick: int, actions: int, past: nat, n: nat, first: bool, w: Setting) returns (b: Input)
    requires (forall text :: !w.matched("lamp", text)) && Waiting(t, tick, actions, past, n) && n - past < HARD_BEAT_TURN_CAP
    requires actions + (if first then 1 else 0) < HARD_BEAT_ACTION_CAP
    ensures b.first == first && Allowed(t.story, Play(b)) && Commits(t.story, b, w)
    ensures Waiting(Advanced(t, Play(b), w), tick, actions + (if first then 1 else 0), past, n + 1)
  {
    b := Spoken(before, t.story, first);
    LiveIs(t, tick, actions, past, n);
    SpokenStays(before, t, tick, actions, past, n, first, w);
    assert b.player + b.rest == b.rest;
    PlayLog(t, b, w);
    AdvancedSized(t, Play(b), w);
    WaitingMore(t, tick, actions, past, n, b.rest[0], actions + (if first then 1 else 0), Advanced(t, Play(b), w));
  }

  lemma WaitingEvict(t: Timeline, tick: int, actions: int, past: nat, n: nat, more: nat, w: Setting)
    requires Waiting(t, tick, actions, past, n) && past + more < n
    ensures Allowed(t.story, Evict(more)) && Waiting(Advanced(t, Evict(more), w), tick, actions, past + more, n)
    ensures |Turns(t.story.history[more..], 1)| == n - past - more
  {
    LiveIs(t, tick, actions, past, n);
    EvictLog(t, more);
    CountUp(t.story.history[more..], past + more + 1, 1);
  }

  /** How many player actions the beat has cost, how many of its turns are evicted, how many there are in all, and
      whether the burst may go on. */
  datatype Course = Course(actions: int, past: nat, n: nat, burst: bool)

  /** A run of a new session, each compaction retaining `k` heard turns, that ends in the timeline `now`. */
  ghost predicate EndsIn(acts: seq<Action>, tick: int, k: nat, burst: bool, now: Timeline, w: Setting) {
    var t := Beginning(tick);
    && AllAllowed(t.story, acts, w) && NoUndo(acts) && Submits(t.story, acts, w) && AllRetain(t.story, acts, k, w)
    && Unrolled(t, acts, w) == Some(now) && (burst ==> InBurst(t.story, acts, w))
  }

  /** Such a run whose timeline is some `p`. */
  ghost predicate Leads(acts: seq<Action>, tick: int, k: nat, burst: bool, p: Timeline -> bool, w: Setting) {
    exists now :: EndsIn(acts, tick, k, burst, now, w) && p(now)
  }

  /** A step such a run may take, and whether the burst may go on after it. */
  ghost predicate MayStep(now: Timeline, a: Action, k: nat, burst: bool, after: bool, w: Setting) {
    && Sized(now) && !a.TakeBack? && Allowed(now.story, a) && Retains(now.story, a, k)
    && (a.Play? && !burst ==> a.beat.first) && (after ==> a.Play? && Commits(now.story, a.beat, w))
  }

  /** Some step leads on to a `q`. */
  ghost predicate LeadsOn(now: Timeline, k: nat, burst: bool, after: bool, q: Timeline -> bool, w: Setting) {
    exists a :: MayStep(now, a, k, burst, after, w) && q(Advanced(now, a, w))
  }

  lemma Snoc(t: Timeline, acts: seq<Action>, a: Action, k: nat, w: Setting)
    requires Sized(t) && AllAllowed(t.story, acts, w) && NoUndo(acts) && Submits(t.story, acts, w) && AllRetain(t.story, acts, k, w)
    requires !a.TakeBack? && Unrolled(t, acts, w).Some? && Unrolled(t, acts, w).value.story == After(t.story, acts, w)
    requires var now := After(t.story, acts, w);
             Allowed(now, a) && Retains(now, a, k) && (a.Play? && !InBurst(t.story, acts, w) ==> a.beat.first)
    ensures var more := acts + [a];
            && AllAllowed(t.story, more, w) && NoUndo(more) && Submits(t.story, more, w) && AllRetain(t.story, more, k, w)
            && Unrolled(t, more, w) == Some(Advanced(Unrolled(t, acts, w).value, a, w))
            && (InBurst(t.story, more, w) <==> a.Play? && Commits(After(t.story, acts, w), a.beat, w))
  {
    var more := acts + [a];
    assert more[..|more| - 1] == acts && more[|more| - 1] == a;
    UnrolledNext(t, more, w);
  }

  /** What a session does next: a beat, opening a player action or going on with one, or a compaction. */
  datatype Move = Speak(first: bool) | Cut

  function Moved(c: Course, m: Move, k: nat): Option<Course> {
    match m
    case Speak(first) =>
      var actions := c.actions + if first then 1 else 0;
      if c.n < c.past + HARD_BEAT_TURN_CAP && actions < HARD_BEAT_ACTION_CAP && (first || c.burst)
      then Some(Course(actions, c.past, c.n + 1, true)) else None
    case Cut =>
      if c.past + k < c.n && k >= 1 then Some(Course(c.actions, c.n - k, c.n, false)) else None
  }

  lemma EndsOn(acts: seq<Action>, tick: int, k: nat, burst: bool, now: Timeline, a: Action, after: bool, w: Setting)
    requires EndsIn(acts, tick, k, burst, now, w) && MayStep(now, a, k, burst, after, w)
    ensures EndsIn(acts + [a], tick, k, after, Advanced(now, a, w), w)
  {
    UnrolledFollows(Beginning(tick), acts, w);
    Snoc(Beginning(tick), acts, a, k, w);
  }

  /** If every `p` leads on to a `q`, so does every run that ends in a `p`. */
  lemma StepOn(acts: seq<Action>, tick: int, k: nat, burst: bool, p: Timeline -> bool, after: bool, q: Timeline -> bool, w: Setting)
    returns (more: seq<Action>)
    requires Leads(acts, tick, k, burst, p, w) && forall now | p(now) :: LeadsOn(now, k, burst, after, q, w)
    ensures Leads(more, tick, k, after, q, w)
  {
    var now :| EndsIn(acts, tick, k, burst, now, w) && p(now);
    var a :| MayStep(now, a, k, burst, after, w) && q(Advanced(now, a, w));
    EndsOn(acts, tick, k, burst, now, a, after, w);
    more := acts + [a];
  }

  ghost function At(tick: int, c: Course): Timeline -> bool {
    now => Waiting(now, tick, c.actions, c.past, c.n)
  }

  lemma SpeakOn(before: World, now: Timeline, tick: int, k: nat, c: Course, first: bool, w: Setting)
    requires (forall text :: !w.matched("lamp", text)) && Waiting(now, tick, c.actions, c.past, c.n)
    requires Moved(c, Speak(first), k).Some?
    ensures LeadsOn(now, k, c.burst, true, At(tick, Moved(c, Speak(first), k).value), w)
  {
    var b := WaitingPlay(before, now, tick, c.actions, c.past, c.n, first, w);
    assert MayStep(now, Play(b), k, c.burst, true, w);
  }

  lemma CutOn(now: Timeline, tick: int, k: nat, c: Course, w: Setting)
    requires Waiting(now, tick, c.actions, c.past, c.n) && Moved(c, Cut, k).Some?
    ensures LeadsOn(now, k, c.burst, false, At(tick, Moved(c, Cut, k).value), w)
  {
    var n := c.n - k - c.past;
    WaitingEvict(now, tick, c.actions, c.past, c.n, n, w);
    assert MayStep(now, Evict(n), k, c.burst, false, w);
  }

  lemma MoveOn(before: World, acts: seq<Action>, tick: int, k: nat, c: Course, m: Move, w: Setting) returns (more: seq<Action>)
    requires (forall text :: !w.matched("lamp", text)) && Leads(acts, tick, k, c.burst, At(tick, c), w) && Moved(c, m, k).Some?
    ensures Leads(more, tick, k, Moved(c, m, k).value.burst, At(tick, Moved(c, m, k).value), w)
  {
    var c' := Moved(c, m, k).value;
    forall now | At(tick, c)(now) ensures LeadsOn(now, k, c.burst, c'.burst, At(tick, c'), w) {
      if m.Cut? { CutOn(now, tick, k, c, w); } else { SpeakOn(before, now, tick, k, c, m.first, w); }
    }
    more := StepOn(acts, tick, k, c.burst, At(tick, c), c'.burst, At(tick, c'), w);
  }

  lemma OpenOn(before: World, tick: int, k: nat, w: Setting) returns (more: seq<Action>)
    ensures Leads(more, tick, k, true, At(tick, Course(0, 0, 1, true)), w)
  {
    var t := Beginning(tick);
    var b := OpeningPlay(before, tick, w);
    assert EndsIn([], tick, k, false, t, w);
    assert MayStep(t, Play(b), k, false, true, w);
    EndsOn([], tick, k, false, t, Play(b), true, w);
    more := [] + [Play(b)];
  }

  /** Where a plan leads after the opening beat. */
  function Along(plan: seq<Move>, k: nat): Option<Course> {
    if plan == [] then Some(Course(0, 0, 1, true))
    else
      var c := Along(plan[..|plan| - 1], k);
      if c.None? then None else Moved(c.value, plan[|plan| - 1], k)
  }

  lemma AlongSnoc(plan: seq<Move>, m: Move, k: nat)
    ensures Along(plan + [m], k) == if Along(plan, k).None? then None else Moved(Along(plan, k).value, m, k)
  {
    assert (plan + [m])[..|plan + [m]| - 1] == plan;
  }

  /** Every plan can be followed. */
  lemma {:induction false} Follow(before: World, plan: seq<Move>, tick: int, k: nat, w: Setting) returns (acts: seq<Action>)
    requires (forall text :: !w.matched("lamp", text)) && Along(plan, k).Some?
    ensures Leads(acts, tick, k, Along(plan, k).value.burst, At(tick, Along(plan, k).value), w)
  {
    if plan == [] {
      acts := OpenOn(before, tick, k, w);
    } else {
      var n := |plan| - 1;
      var earlier := Follow(before, plan[..n], tick, k, w);
      acts := MoveOn(before, earlier, tick, k, Along(plan[..n], k).value, plan[n], w);
    }
  }

  /** A compaction to `k` turns and a skip with as many turns as the beat has left. */
  function Again(k: nat): seq<Move> {
    if k == 1 then [Cut, Speak(true), Speak(false)] else [Cut, Speak(true)]
  }

  /** A skip of three turns, and twice another one after a compaction. */
  function ThreeSkips(k: nat): seq<Move> {
    ([Speak(false), Speak(false)] + Again(k)) + Again(k)
  }

  lemma ThreeSkipsLead(k: nat)
    requires 1 <= k <= 2
    ensures Along(ThreeSkips(k), k) == Some(Course(2, 6 - 2 * k, 9 - 2 * k, true))
  {
    assert [Speak(false), Speak(false)] == ([] + [Speak(false)]) + [Speak(false)];
    AlongSnoc([], Speak(false), k);
    AlongSnoc([] + [Speak(false)], Speak(false), k);
    AgainLeads([Speak(false), Speak(false)], k, Course(0, 0, 3, true));
    AgainLeads([Speak(false), Speak(false)] + Again(k), k, Course(1, 3 - k, 6 - k, true));
  }

  lemma AgainLeads(plan: seq<Move>, k: nat, c: Course)
    requires 1 <= k <= 2 && Along(plan, k) == Some(c) && c.n == c.past + HARD_BEAT_TURN_CAP && c.actions < 2
    ensures Along(plan + Again(k), k) == Some(Course(c.actions + 1, c.n - k, c.n + HARD_BEAT_TURN_CAP - k, true))
  {
    var cut := plan + [Cut];
    var one := cut + [Speak(true)];
    AlongSnoc(plan, Cut, k);
    AlongSnoc(cut, Speak(true), k);
    AlongSnoc(one, Speak(false), k);
    assert plan + Again(k) == if k == 1 then one + [Speak(false)] else one;
  }

  lemma AllWereHeard(t: Timeline, tick: int, actions: int, past: nat, n: nat)
    requires Waiting(t, tick, actions, past, n)
    ensures |Heard(t)| == n
  {
    CountUp(Log(t), 1, 1);
    assert Heard(t) == Turns(Log(t), 1);
  }

  /** The bound is exact: in a new session whose compactions retain one turn a beat can be heard on seven turns,
      and where they retain two on five. */
  lemma HeardCapIsReached(before: World, tick: int, k: nat, w: Setting) returns (acts: seq<Action>)
    requires (forall text :: !w.matched("lamp", text)) && 1 <= k <= 2
    ensures var t := Beginning(tick);
            && Unwritten(t) && AllAllowed(t.story, acts, w) && NoUndo(acts) && Submits(t.story, acts, w)
            && AllRetain(t.story, acts, k, w)
            && var now := Unrolled(t, acts, w);
            && now.Some? && now.value.story.roteiro.Some? && now.value.story.roteiro.value.beat.Some?
            && |Heard(now.value)| == HeardCap(k, StallAt(now.value.story.roteiro.value)) == if k == 1 then 7 else 5
  {
    ThreeSkipsLead(k);
    acts := Follow(before, ThreeSkips(k), tick, k, w);
    var now :| EndsIn(acts, tick, k, true, now, w) && At(tick, Course(2, 6 - 2 * k, 9 - 2 * k, true))(now);
    AllWereHeard(now, tick, 2, 6 - 2 * k, 9 - 2 * k);
  }
}
