/** Turns that were heard against turns that are counted: what undo and compaction do to the three-turn
    ceiling of a beat. */
module StoryHeard {
  import opened Wrappers
  import opened Model
  import opened History
  import opened StoryClock
  import opened StoryTheorems
  import opened StoryUndo
  import Ints

  /** A story together with what its numbers do not say: the records compaction has dropped, how many records
      there had ever been when the current beat began, and the same for the beat that each live record
      found. */
  datatype Timeline = Timeline(story: Story, past: Records, born: nat, births: seq<nat>)

  /** Every record that was neither undone nor forgotten. */
  function Log(t: Timeline): Records {
    t.past + t.story.history
  }

  /** A maintenance step starts a beat. */
  predicate Begins(s: Story, b: Input, w: Setting) {
    && Commits(s, b, w)
    && (s.roteiro.None? || DeadlineDue(s.roteiro.value, s.tick) || !VerdictOf(s, b, w).decision.Stay?)
  }

  predicate Sized(t: Timeline) {
    |t.births| == |t.story.history|
  }

  function Advanced(t: Timeline, a: Action, w: Setting): Timeline
    requires Sized(t) && Allowed(t.story, a)
  {
    var s, next := t.story, Step(t.story, a, w);
    match a
    case Play(b) =>
      if !Commits(s, b, w) then t
      else Timeline(next, t.past, if Begins(s, b, w) then |Log(t)| else t.born,
                    t.births + seq(|b.player + b.rest|, _ => t.born))
    case TakeBack =>
      if s.history == [] then t
      else Timeline(next, t.past, t.births[|next.history|], t.births[..|next.history|])
    case Evict(n) => Shortened(t, n)
  }

  function Shortened(t: Timeline, n: nat): Timeline
    requires Sized(t) && n <= |t.story.history|
  {
    Timeline(t.story.(history := t.story.history[n..]), t.past + t.story.history[..n], t.born, t.births[n..])
  }

  function Earlier(t: Timeline, k: nat): Timeline
    requires Sized(t) && k < |t.story.history|
  {
    Timeline(BackTo(t.story.history, k), t.past, t.births[k], t.births[..k])
  }

  function Unrolled(t: Timeline, acts: seq<Action>, w: Setting): (r: Option<Timeline>)
    ensures r.Some? ==> Sized(r.value)
  {
    if !Sized(t) then None
    else if acts == [] then Some(t)
    else
      var n := |acts| - 1;
      var before := Unrolled(t, acts[..n], w);
      if before.None? || !Allowed(before.value.story, acts[n]) then None
      else
        AdvancedSized(before.value, acts[n], w);
        Some(Advanced(before.value, acts[n], w))
  }

  lemma AdvancedSized(t: Timeline, a: Action, w: Setting)
    requires Sized(t) && Allowed(t.story, a)
    ensures Sized(Advanced(t, a, w)) && Advanced(t, a, w).story == Step(t.story, a, w)
  {
  }

  lemma UnrolledNext(t: Timeline, acts: seq<Action>, w: Setting)
    requires acts != [] && Unrolled(t, acts[..|acts| - 1], w).Some?
    requires Allowed(Unrolled(t, acts[..|acts| - 1], w).value.story, acts[|acts| - 1])
    ensures Unrolled(t, acts, w) == Some(Advanced(Unrolled(t, acts[..|acts| - 1], w).value, acts[|acts| - 1], w))
  {
  }

  /** The timeline of a run follows the run. */
  lemma {:induction false} UnrolledFollows(t: Timeline, acts: seq<Action>, w: Setting)
    requires Sized(t) && AllAllowed(t.story, acts, w)
    ensures Unrolled(t, acts, w).Some? && Unrolled(t, acts, w).value.story == After(t.story, acts, w)
  {
    if acts != [] {
      var n := |acts| - 1;
      UnrolledFollows(t, acts[..n], w);
      UnrolledNext(t, acts, w);
      AdvancedSized(Unrolled(t, acts[..n], w).value, acts[n], w);
    }
  }

  // ---- heard and counted ---------------------------------------------------

  /** Record `i` of the log was heard on the current beat. */
  predicate HeardAt(t: Timeline, i: nat) {
    t.born <= i < |Log(t)| && Log(t)[i].kind != Thought
  }

  /** The turns heard since the current beat began, evicted or not. */
  function Heard(t: Timeline): set<int> {
    set i | 0 <= i < |Log(t)| && HeardAt(t, i) :: Log(t)[i].turn
  }

  /** It is live and numbered from the beat's start on. */
  predicate CountedAt(t: Timeline, i: nat)
    requires t.story.roteiro.Some? && i < |Log(t)|
  {
    |t.past| <= i && Log(t)[i].turn >= t.story.roteiro.value.beatStartedTurn
  }

  ghost predicate AllCounted(t: Timeline)
    requires t.story.roteiro.Some?
  {
    forall i: nat | HeardAt(t, i) :: CountedAt(t, i)
  }

  /** Every live record heard on the beat has a number the beat counts. */
  ghost predicate LiveCounted(t: Timeline) {
    t.story.roteiro.Some? ==>
      forall i: nat | HeardAt(t, i) && |t.past| <= i :: Log(t)[i].turn >= t.story.roteiro.value.beatStartedTurn
  }

  /** No record heard on the beat was evicted. */
  ghost predicate NoneEvicted(t: Timeline) {
    forall i | t.born <= i < |t.past| :: t.past[i].kind == Thought
  }

  /** The same holds after every undo. */
  ghost predicate AlwaysCounted(t: Timeline) {
    && Sized(t) && LiveCounted(t)
    && forall k: nat | Opens(t.story.history, k) :: LiveCounted(Earlier(t, k))
  }

  /** A turn heard on a beat that goes on has a number no smaller than the beat's start. */
  predicate OnTime(s: Story, a: Action, w: Setting) {
    a.Play? && GoesOn(s, a.beat, w) ==> Timely(s)
  }

  /** The beat is heard without a new one beginning. */
  predicate GoesOn(s: Story, b: Input, w: Setting) {
    Commits(s, b, w) && !Begins(s, b, w) && exists r | r in b.player + b.rest :: r.kind != Thought
  }

  lemma BeginsHere(s: Story, b: Input, w: Setting)
    requires Commits(s, b, w)
    ensures var n := Next(s, b, w).roteiro;
            && n.Some?
            && (Begins(s, b, w) ==> n.value.beatStartedTurn == NextTurn(s.history))
            && (!Begins(s, b, w) ==> s.roteiro.Some? && n.value.beatStartedTurn == s.roteiro.value.beatStartedTurn)
  {
    if s.roteiro.Some? { Cases(s, b, w); }
  }

  /** What a committed beat does to the timeline. */
  ghost predicate Grown(t: Timeline, added: Records, n: Timeline) {
    && n.past == t.past && n.story.history == t.story.history + added && n.story.roteiro.Some?
    && (forall i | 0 <= i < |added| :: added[i].turn == NextTurn(t.story.history))
    && (|| (n.story.roteiro.value.beatStartedTurn == NextTurn(t.story.history) && n.born == |Log(t)|)
        || (t.story.roteiro.Some? && n.born == t.born
            && n.story.roteiro.value.beatStartedTurn == t.story.roteiro.value.beatStartedTurn))
  }

  lemma PlayGrows(t: Timeline, b: Input, w: Setting)
    requires Sized(t) && Allowed(t.story, Play(b)) && Commits(t.story, b, w)
    ensures Grown(t, b.player + b.rest, Advanced(t, Play(b), w))
  {
    BeginsHere(t.story, b, w);
    assert t.story.history + b.player + b.rest == t.story.history + (b.player + b.rest);
  }

  lemma LogGrows(t: Timeline, added: Records, n: Timeline)
    requires Grown(t, added, n)
    ensures Log(n) == Log(t) + added
  {
  }

  /** A beat that goes on stays wholly counted exactly when the turn is on time. */
  lemma PlayCountedExactly(t: Timeline, b: Input, w: Setting)
    requires Sized(t) && LiveCounted(t) && Allowed(t.story, Play(b)) && t.born <= |Log(t)|
    ensures LiveCounted(Advanced(t, Play(b), w)) <==> OnTime(t.story, Play(b), w)
  {
    if Commits(t.story, b, w) {
      var added, n := b.player + b.rest, Advanced(t, Play(b), w);
      PlayGrows(t, b, w);
      BeginsHere(t.story, b, w);
      LogGrows(t, added, n);
      if OnTime(t.story, Play(b), w) {
        PlayCounted(t, b, w);
      } else {
        var r :| r in added && r.kind != Thought;
        var i :| 0 <= i < |added| && added[i] == r;
        assert Log(n)[|Log(t)| + i] == r && HeardAt(n, |Log(t)| + i);
      }
    }
  }

  lemma PlayCounted(t: Timeline, b: Input, w: Setting)
    requires Sized(t) && LiveCounted(t) && Allowed(t.story, Play(b)) && OnTime(t.story, Play(b), w) && Commits(t.story, b, w)
    ensures LiveCounted(Advanced(t, Play(b), w))
  {
    var added, n := b.player + b.rest, Advanced(t, Play(b), w);
    PlayGrows(t, b, w);
    BeginsHere(t.story, b, w);
    LogGrows(t, added, n);
    forall i: nat | HeardAt(n, i) && |n.past| <= i
      ensures Log(n)[i].turn >= n.story.roteiro.value.beatStartedTurn
    {
      if i < |Log(t)| {
        assert Log(n)[i] == Log(t)[i];
        assert HeardAt(t, i);
      } else {
        assert Log(n)[i] == added[i - |Log(t)|] && added[i - |Log(t)|] in added;
      }
    }
  }

  lemma PlayAlwaysCounted(t: Timeline, b: Input, w: Setting)
    requires AlwaysCounted(t) && Allowed(t.story, Play(b)) && OnTime(t.story, Play(b), w)
    ensures AlwaysCounted(Advanced(t, Play(b), w))
  {
    if Commits(t.story, b, w) {
      var added, n := b.player + b.rest, Advanced(t, Play(b), w);
      PlayCounted(t, b, w);
      PlayGrows(t, b, w);
      var h, more := t.story.history, n.story.history;
      forall k: nat | Opens(more, k) ensures LiveCounted(Earlier(n, k)) {
        EarlierGrown(t, added, n, k);
      }
    }
  }

  /** Undoing a beat leads to the state before it, and further back as before. */
  lemma EarlierGrown(t: Timeline, added: Records, n: Timeline, k: nat)
    requires Sized(t) && Sized(n) && Grown(t, added, n) && Opens(n.story.history, k)
    requires forall r | r in added :: r.snapshot.tick == t.story.tick && r.snapshot.roteiro == t.story.roteiro
    requires n.births == t.births + seq(|added|, _ => t.born)
    ensures if k < |t.story.history| then Opens(t.story.history, k) && Earlier(n, k) == Earlier(t, k) else Earlier(n, k) == t
  {
    var h, more := t.story.history, n.story.history;
    if k < |h| {
      assert more[..k] == h[..k] && n.births[..k] == t.births[..k];
    } else {
      assert more[k] == added[k - |h|] && k == |h|;
      assert more[..k] == h && added[0] in added && n.births[..k] == t.births;
    }
  }

  lemma TakeBackIsEarlier(t: Timeline, w: Setting) returns (k: nat)
    requires Sized(t) && t.story.history != []
    ensures Opens(t.story.history, k) && Advanced(t, TakeBack, w) == Earlier(t, k)
  {
    k := TakeBackOpens(t.story.history);
  }

  lemma EarlierTwice(t: Timeline, k: nat, j: nat)
    requires Sized(t) && k < |t.story.history| && Opens(t.story.history[..k], j)
    ensures Opens(t.story.history, j) && Earlier(Earlier(t, k), j) == Earlier(t, j)
  {
    var h := t.story.history;
    assert h[..k][..j] == h[..j] && t.births[..k][..j] == t.births[..j];
  }

  lemma TakeBackAlwaysCounted(t: Timeline, w: Setting)
    requires AlwaysCounted(t)
    ensures AlwaysCounted(Advanced(t, TakeBack, w))
  {
    if t.story.history != [] {
      var k := TakeBackIsEarlier(t, w);
      forall j: nat | Opens(Earlier(t, k).story.history, j) ensures LiveCounted(Earlier(Earlier(t, k), j)) {
        EarlierTwice(t, k, j);
      }
    }
  }

  lemma ShortenedCounted(t: Timeline, n: nat)
    requires Sized(t) && LiveCounted(t) && n <= |t.story.history|
    ensures LiveCounted(Shortened(t, n)) && Log(Shortened(t, n)) == Log(t)
  {
    assert t.story.history == t.story.history[..n] + t.story.history[n..];
    var a := Shortened(t, n);
    assert Log(a) == Log(t);
    forall i: nat | HeardAt(a, i) && |a.past| <= i ensures HeardAt(t, i) && |t.past| <= i {}
  }

  lemma EarlierShortened(t: Timeline, n: nat, k: nat)
    requires Sized(t) && n < |t.story.history| && Opens(t.story.history, n) && Opens(t.story.history[n..], k)
    ensures Opens(t.story.history, n + k) && Earlier(Shortened(t, n), k) == Shortened(Earlier(t, n + k), n)
  {
    var h, rest := t.story.history, t.story.history[n..];
    assert rest[k] == h[n + k] && (k > 0 ==> rest[k - 1] == h[n + k - 1]);
    assert h[..n + k][n..] == rest[..k] && h[..n + k][..n] == h[..n];
    assert t.births[n..][..k] == t.births[..n + k][n..];
  }

  lemma EvictAlwaysCounted(t: Timeline, n: nat, w: Setting)
    requires AlwaysCounted(t) && Allowed(t.story, Evict(n))
    ensures AlwaysCounted(Advanced(t, Evict(n), w))
  {
    ShortenedCounted(t, n);
    forall k: nat | Opens(t.story.history[n..], k) ensures LiveCounted(Earlier(Shortened(t, n), k)) {
      EarlierShortened(t, n, k);
      ShortenedCounted(Earlier(t, n + k), n);
    }
  }

  /** Every heard turn of the run is on time. */
  predicate AllOnTime(s: Story, acts: seq<Action>, w: Setting) {
    acts == [] || (AllOnTime(s, acts[..|acts| - 1], w) && OnTime(After(s, acts[..|acts| - 1], w), acts[|acts| - 1], w))
  }

  lemma {:induction false} CountedForever(t: Timeline, acts: seq<Action>, w: Setting)
    requires AlwaysCounted(t) && AllAllowed(t.story, acts, w) && AllOnTime(t.story, acts, w)
    ensures Unrolled(t, acts, w).Some? && AlwaysCounted(Unrolled(t, acts, w).value)
  {
    if acts != [] {
      var n := |acts| - 1;
      CountedForever(t, acts[..n], w);
      UnrolledFollows(t, acts[..n], w);
      UnrolledNext(t, acts, w);
      var before := Unrolled(t, acts[..n], w).value;
      match acts[n]
      case Play(b) => PlayAlwaysCounted(before, b, w);
      case TakeBack => TakeBackAlwaysCounted(before, w);
      case Evict(m) => EvictAlwaysCounted(before, m, w);
    }
  }

  lemma HeardIsCounted(t: Timeline)
    requires t.story.roteiro.Some? && AllCounted(t)
    ensures Heard(t) <= Turns(t.story.history, t.story.roteiro.value.beatStartedTurn)
  {
    forall n | n in Heard(t) ensures n in Turns(t.story.history, t.story.roteiro.value.beatStartedTurn) {
      var i :| 0 <= i < |Log(t)| && HeardAt(t, i) && Log(t)[i].turn == n;
      assert CountedAt(t, i) && t.story.history[i - |t.past|] == Log(t)[i];
    }
  }

  lemma CountedIffNoneEvicted(t: Timeline)
    requires t.story.roteiro.Some? && LiveCounted(t)
    ensures AllCounted(t) <==> NoneEvicted(t)
  {
    if i :| t.born <= i < |t.past| && t.past[i].kind != Thought {
      assert Log(t)[i] == t.past[i];
      assert HeardAt(t, i) && !CountedAt(t, i);
    }
    assert forall i | 0 <= i < |t.past| :: Log(t)[i] == t.past[i];
  }

  /** Over every run of beats, undos and compactions whose heard turns are on time: every turn heard since the
      current beat began is counted exactly if none of them was evicted, and then there are at most three. */
  lemma HeardAtMostThree(t: Timeline, acts: seq<Action>, w: Setting)
    requires Healthy(t.story) && Anchored(t.story.history) && AlwaysCounted(t)
    requires AllAllowed(t.story, acts, w) && AllOnTime(t.story, acts, w)
    ensures var now := Unrolled(t, acts, w);
            && now.Some? && now.value.story == After(t.story, acts, w)
            && (now.value.story.roteiro.Some? ==>
                  && (AllCounted(now.value) <==> NoneEvicted(now.value))
                  && (NoneEvicted(now.value) ==> |Heard(now.value)| <= HARD_BEAT_TURN_CAP))
  {
    UnrolledFollows(t, acts, w);
    CountedForever(t, acts, w);
    HealthyForever(t.story, acts, w);
    var now := Unrolled(t, acts, w).value;
    if now.story.roteiro.Some? {
      CountedIffNoneEvicted(now);
      if AllCounted(now) {
        HeardIsCounted(now);
        Ints.SubsetSize(Heard(now), Turns(now.story.history, now.story.roteiro.value.beatStartedTurn));
      }
    }
  }

  // ---- when the turn numbers go on -----------------------------------------

  /** Undos lead to timely states, except one that leaves no live record above evicted ones. */
  ghost predicate StaysTimely(t: Timeline) {
    && Sized(t) && Timely(t.story)
    && forall k: nat | Opens(t.story.history, k) && (k > 0 || t.past == []) :: Timely(BackTo(t.story.history, k))
  }

  /** The step is not an undo that empties a history with evicted records below it. */
  predicate KeepsALiveRecord(t: Timeline, a: Action) {
    a.TakeBack? && t.story.history != [] && t.past != [] ==> TakenBack(t.story).history != []
  }

  lemma PlayStaysTimely(t: Timeline, b: Input, w: Setting)
    requires Numbered(t.story.history) && StaysTimely(t) && Allowed(t.story, Play(b))
    ensures StaysTimely(Advanced(t, Play(b), w))
  {
    var s := t.story;
    if Commits(s, b, w) {
      var added, n := b.player + b.rest, Advanced(t, Play(b), w);
      PlayGrows(t, b, w);
      NumberedMore(s.history, added);
      if added == [] { assert s.history + added == s.history; }
      forall k: nat | Opens(n.story.history, k) && (k > 0 || n.past == []) ensures Timely(BackTo(n.story.history, k)) {
        EarlierGrown(t, added, n, k);
        assert Earlier(n, k).story == BackTo(n.story.history, k);
      }
    }
  }

  lemma TakeBackStaysTimely(t: Timeline, w: Setting)
    requires StaysTimely(t) && KeepsALiveRecord(t, TakeBack)
    ensures StaysTimely(Advanced(t, TakeBack, w))
  {
    if t.story.history != [] {
      var k := TakeBackIsEarlier(t, w);
      forall j: nat | Opens(Earlier(t, k).story.history, j) && (j > 0 || t.past == [])
        ensures Timely(BackTo(Earlier(t, k).story.history, j))
      {
        EarlierTwice(t, k, j);
        assert Earlier(t, j).story == BackTo(t.story.history, j);
      }
    }
  }

  lemma EvictStaysTimely(t: Timeline, n: nat, w: Setting)
    requires StaysTimely(t) && Allowed(t.story, Evict(n))
    ensures StaysTimely(Advanced(t, Evict(n), w))
  {
    var h, rest := t.story.history, t.story.history[n..];
    assert rest[|rest| - 1] == h[|h| - 1];
    var a := Shortened(t, n);
    forall k: nat | Opens(rest, k) && (k > 0 || a.past == []) ensures Timely(BackTo(rest, k)) {
      EarlierShortened(t, n, k);
      assert BackTo(rest, k) == Shortened(Earlier(t, n + k), n).story;
      assert BackTo(h, n + k) == Earlier(t, n + k).story;
      if k > 0 {
        assert rest[..k][k - 1] == h[..n + k][n + k - 1];
      } else {
        assert n == 0 && rest == h;
      }
    }
  }

  /** No undo of the run empties a history with evicted records below it. */
  predicate AllKeepALiveRecord(t: Timeline, acts: seq<Action>, w: Setting) {
    acts == [] ||
    var before := Unrolled(t, acts[..|acts| - 1], w);
    AllKeepALiveRecord(t, acts[..|acts| - 1], w) && (before.Some? ==> KeepsALiveRecord(before.value, acts[|acts| - 1]))
  }

  /** While no undo empties a history above evicted records, every turn is on time, and so will be the next. */
  lemma {:induction false} NumbersGoOn(t: Timeline, acts: seq<Action>, w: Setting)
    requires Healthy(t.story) && Anchored(t.story.history) && StaysTimely(t)
    requires AllAllowed(t.story, acts, w) && AllKeepALiveRecord(t, acts, w)
    ensures AllOnTime(t.story, acts, w)
    ensures Unrolled(t, acts, w).Some? && StaysTimely(Unrolled(t, acts, w).value)
  {
    if acts != [] {
      var n := |acts| - 1;
      NumbersGoOn(t, acts[..n], w);
      UnrolledFollows(t, acts[..n], w);
      HealthyForever(t.story, acts[..n], w);
      UnrolledNext(t, acts, w);
      var before := Unrolled(t, acts[..n], w).value;
      match acts[n]
      case Play(b) => PlayStaysTimely(before, b, w);
      case TakeBack => TakeBackStaysTimely(before, w);
      case Evict(m) => EvictStaysTimely(before, m, w);
    }
  }

  /** The excepted undo: it leaves the numbers out of step exactly when the beat it goes back to began after
      turn 1. */
  lemma EmptyingUndo(s: Story)
    requires s.history != [] && TakenBack(s).history == []
    ensures Timely(TakenBack(s)) <==>
      (TakenBack(s).roteiro.Some? ==> TakenBack(s).roteiro.value.beatStartedTurn <= 1)
  {
  }

  // ---- a run in which no turn is counted -----------------------------------

  /** A beat that began on turn 50 and waits for a lamp. */
  function LampBeat(): Roteiro {
    Roteiro("p", [RoteiroAct("a", "an act", "", 0, "")], 0, Some(RoteiroBeat("b", "intent", [], ["lamp"], "", 6)),
            50, 0, [], 0, 52, 0, [])
  }

  /** The beat before it. */
  function DoorBeat(): Roteiro {
    LampBeat().(beat := Some(RoteiroBeat("a", "intent", [], ["door"], "", 6)), beatStartedTurn := 47, cooldownUntilTurn := 49)
  }

  function Narrated(before: World, s: Story): TurnRecord {
    TurnRecord(NextTurn(s.history), NARRATOR, [], Narration, None, Zone, before.(roteiro := s.roteiro, tick := s.tick))
  }

  /** A player action of one beat, in which the narrator alone is heard. */
  function Pass(before: World, s: Story): Input {
    Input([], true, Reply(None, false, [], ""), [Narrated(before, s)], 0, [], true)
  }

  /** Turns 50 and 51: the beat began on the first of them. */
  function TwoTurns(before: World): Story {
    var first := Narrated(before, Story(Some(DoorBeat()), 59, [])).(turn := 50);
    Story(Some(LampBeat()), 61, [first, Narrated(before, Story(Some(LampBeat()), 60, [first]))])
  }

  lemma TwoTurnsHealthy(before: World)
    ensures Healthy(TwoTurns(before)) && Anchored(TwoTurns(before).history)
  {
    var h := TwoTurns(before).history;
    assert Turns(h, 50) <= {50, 51};
    Ints.SubsetSize(Turns(h, 50), {50, 51});
    forall k: nat | Opens(h, k) ensures Healthy(BackTo(h, k)) {
      if k == 0 {
        assert Turns(h[..0], 47) == {};
      } else {
        assert Turns(h[..1], 50) <= {50};
        Ints.SubsetSize(Turns(h[..1], 50), {50});
      }
    }
  }

  lemma RunSnoc(s: Story, acts: seq<Action>, a: Action, w: Setting)
    ensures After(s, acts + [a], w) == Step(After(s, acts, w), a, w)
    ensures AllAllowed(s, acts + [a], w) <==> AllAllowed(s, acts, w) && Allowed(After(s, acts, w), a)
  {
    var more := acts + [a];
    assert more[..|more| - 1] == acts && more[|more| - 1] == a;
  }

  lemma EvictThenUndo(s: Story, w: Setting)
    requires |s.history| == 2 && s.history[0].turn != s.history[1].turn
    ensures AllAllowed(s, [Evict(1), TakeBack], w)
    ensures After(s, [Evict(1), TakeBack], w) == Story(s.history[1].snapshot.roteiro, s.history[1].snapshot.tick, [])
  {
    var b := s.history[1];
    assert s.history[1..] == [b] && [b][..0] == [];
    assert After(s, [], w) == s && AllAllowed(s, [], w);
    RunSnoc(s, [], Evict(1), w);
    RunSnoc(s, [Evict(1)], TakeBack, w);
    assert [] + [Evict(1)] == [Evict(1)] && [Evict(1)] + [TakeBack] == [Evict(1), TakeBack];
  }

  /** `n` player actions after the numbers restarted: turns 1 to `n` were heard, and the beat of turn 50 is still
      the current one, its actions long spent. */
  predicate Restarted(s: Story, n: nat) {
    && s.roteiro == Some(LampBeat().(beatActionsElapsed := n)) && |s.history| == n
    && forall i | 0 <= i < n :: s.history[i].turn == i + 1 && s.history[i].kind == Narration
  }

  /** One more of them: the numbers below the cooldown keep the beat, whatever the actions. */
  lemma PassStays(before: World, s: Story, n: nat, w: Setting)
    requires Restarted(s, n) && n < 49
    ensures var b := Pass(before, s);
            && Allowed(s, Play(b)) && Commits(s, b, w) && !Begins(s, b, w) && Restarted(Next(s, b, w), n + 1)
  {
    var b := Pass(before, s);
    var counted := Counted(s.roteiro.value, true);
    assert s.history + b.player == s.history && counted == LampBeat().(beatActionsElapsed := n + 1);
    assert "lamp" in counted.beat.value.anchors && "lamp" !in counted.anchorsSeen;
    UncountedBeatStays(counted, s.history, w.controlled, w.matched);
    Cases(s, b, w);
    assert counted.anchorsSeen + [] == counted.anchorsSeen;
  }

  predicate OnlySubmissions(acts: seq<Action>) {
    forall a | a in acts :: a.Play? && a.beat.first
  }

  /** These plays, after the compaction and the undo, are player actions heard on the beat of turn 50. */
  ghost predicate Hidden(before: World, plays: seq<Action>, w: Setting) {
    && OnlySubmissions(plays) && AllAllowed(TwoTurns(before), [Evict(1), TakeBack] + plays, w)
    && Restarted(After(TwoTurns(before), [Evict(1), TakeBack] + plays, w), |plays|)
  }

  lemma PassStep(before: World, s: Story, n: nat, w: Setting)
    requires Restarted(s, n) && n < 49
    ensures Allowed(s, Play(Pass(before, s))) && Restarted(Step(s, Play(Pass(before, s)), w), n + 1)
  {
    PassStays(before, s, n, w);
  }

  lemma OneMoreSubmission(plays: seq<Action>, before: World, s: Story)
    requires OnlySubmissions(plays)
    ensures OnlySubmissions(plays + [Play(Pass(before, s))])
  {
  }

  lemma StartAndMore(plays: seq<Action>, one: Action)
    ensures [Evict(1), TakeBack] + (plays + [one]) == [Evict(1), TakeBack] + plays + [one]
  {
  }

  lemma HiddenStep(before: World, plays: seq<Action>, mid: Story, w: Setting)
    requires Hidden(before, plays, w) && |plays| < 49 && mid == After(TwoTurns(before), [Evict(1), TakeBack] + plays, w)
    ensures Hidden(before, plays + [Play(Pass(before, mid))], w)
  {
    var one := Play(Pass(before, mid));
    PassStep(before, mid, |plays|, w);
    OneMoreSubmission(plays, before, mid);
    RunSnoc(TwoTurns(before), [Evict(1), TakeBack] + plays, one, w);
    StartAndMore(plays, one);
  }

  lemma RestartedUncounted(s: Story, n: nat)
    requires Restarted(s, n) && n < 50
    ensures Turns(s.history, 50) == {}
  {
  }

  lemma {:induction false} HiddenPlays(before: World, w: Setting, n: nat) returns (plays: seq<Action>)
    requires n < 50
    ensures |plays| == n && Hidden(before, plays, w)
  {
    plays := [];
    if n == 0 {
      TwoTurnsHealthy(before);
      EvictThenUndo(TwoTurns(before), w);
      assert [Evict(1), TakeBack] + plays == [Evict(1), TakeBack];
    } else {
      plays := HiddenPlays(before, w, n - 1);
      var mid := After(TwoTurns(before), [Evict(1), TakeBack] + plays, w);
      HiddenStep(before, plays, mid, w);
      plays := plays + [Play(Pass(before, mid))];
    }
  }

  /** A compaction that keeps one turn, the undo of that turn, then up to 49 player actions: the beat that began
      on turn 50 is still the current one, all of them were heard live and none of them was counted. */
  lemma RestartedCountHidesTurns(before: World, w: Setting, n: nat) returns (plays: seq<Action>)
    requires n < 50
    ensures Healthy(TwoTurns(before)) && Anchored(TwoTurns(before).history)
    ensures !Timely(After(TwoTurns(before), [Evict(1), TakeBack], w))
    ensures |plays| == n && OnlySubmissions(plays) && AllAllowed(TwoTurns(before), [Evict(1), TakeBack] + plays, w)
    ensures var now := After(TwoTurns(before), [Evict(1), TakeBack] + plays, w);
            Restarted(now, n) && Turns(now.history, 50) == {}
  {
    TwoTurnsHealthy(before);
    EvictThenUndo(TwoTurns(before), w);
    plays := HiddenPlays(before, w, n);
    RestartedUncounted(After(TwoTurns(before), [Evict(1), TakeBack] + plays, w), n);
  }
}
