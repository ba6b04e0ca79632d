/** What undoing beats gives back. */
module UndoTheorems {
  import opened Wrappers
  import opened Json
  import opened Model
  import opened History
  import opened Sessions

  /** The records a list of stages adds. */
  function Spoken(w: World, step: int, stages: seq<Stage>): Records
    decreases |stages|
  {
    if stages == [] then []
    else (if stages[0].Say? then [Recorded(w, step, stages[0].line)] else []) + Spoken(Onstage(w, stages[0]), step, stages[1..])
  }

  function Played(w: World, stages: seq<Stage>): World
    decreases |stages|
  {
    if stages == [] then w else Played(Onstage(w, stages[0]), stages[1..])
  }

  lemma {:induction false} RunStagesSpoken(s: Session, step: int, stages: seq<Stage>)
    ensures RunStages(s, step, stages)
         == s.(history := s.history + Spoken(s.world, step, stages), world := Played(s.world, stages))
    decreases |stages|
  {
    if stages != [] {
      RunStagesSpoken(RunStage(s, step, stages[0]), step, stages[1..]);
      var first := if stages[0].Say? then [Recorded(s.world, step, stages[0].line)] else [];
      var rest := Spoken(Onstage(s.world, stages[0]), step, stages[1..]);
      assert s.history + (first + rest) == (s.history + first) + rest;
    }
  }

  /** The world as the first record of the stages found it. */
  function FirstHeard(w: World, stages: seq<Stage>): World
    decreases |stages|
  {
    if stages == [] || stages[0].Say? then w else FirstHeard(Onstage(w, stages[0]), stages[1..])
  }

  lemma {:induction false} SpokenSnapshots(w: World, step: int, stages: seq<Stage>)
    ensures Spoken(w, step, stages) == [] <==> forall st | st in stages :: !st.Say?
    ensures forall r | r in Spoken(w, step, stages) :: r.turn == step
    ensures Spoken(w, step, stages) != [] ==>
      Spoken(w, step, stages)[0].snapshot == FirstHeard(w, stages).(tick := 0, roteiro := None)
    decreases |stages|
  {
    if stages != [] {
      SpokenSnapshots(Onstage(w, stages[0]), step, stages[1..]);
      assert stages == [stages[0]] + stages[1..];
    }
  }

  /** Stages change the clock, screenplay, scene and ledgers, and nothing else a snapshot holds. */
  lemma {:induction false} FirstHeardKeeps(w: World, stages: seq<Stage>)
    ensures FirstHeard(w, stages) == w.(scene := FirstHeard(w, stages).scene, ledgers := FirstHeard(w, stages).ledgers,
                                        tick := FirstHeard(w, stages).tick, roteiro := FirstHeard(w, stages).roteiro)
    decreases |stages|
  {
    if stages != [] && !stages[0].Say? {
      FirstHeardKeeps(Onstage(w, stages[0]), stages[1..]);
    }
  }

  function StampAll(h: Records, tick: int, roteiro: Option<Roteiro>): Records {
    if h == [] then [] else StampAll(h[..|h| - 1], tick, roteiro) + [Stamp(h[|h| - 1], tick, roteiro)]
  }

  lemma {:induction false} StampAllAt(h: Records, tick: int, roteiro: Option<Roteiro>)
    ensures |StampAll(h, tick, roteiro)| == |h|
    ensures forall i | 0 <= i < |h| :: StampAll(h, tick, roteiro)[i] == Stamp(h[i], tick, roteiro)
  {
    if h != [] { StampAllAt(h[..|h| - 1], tick, roteiro); }
  }

  lemma {:induction false} StampedSuffix(h: Records, added: Records, step: int, tick: int, roteiro: Option<Roteiro>)
    requires forall i | 0 <= i < |added| :: added[i].turn == step
    requires h == [] || h[|h| - 1].turn != step
    ensures Stamped(h + added, step, tick, roteiro) == h + StampAll(added, tick, roteiro)
    decreases |added|
  {
    if added == [] {
      assert h + added == h;
    } else {
      var n := |added| - 1;
      StampedSuffix(h, added[..n], step, tick, roteiro);
      SnocParts(h, added);
    }
  }

  lemma SnocParts<T>(a: seq<T>, b: seq<T>)
    requires b != []
    ensures (a + b)[..|a + b| - 1] == a + b[..|b| - 1]
    ensures (a + b)[|a + b| - 1] == b[|b| - 1]
  {
  }

  lemma {:induction false} TurnStartAt(h: Records, k: nat, turn: int)
    requires k <= |h|
    requires forall i | k <= i < |h| :: h[i].turn == turn
    requires k > 0 ==> h[k - 1].turn != turn
    ensures TurnStart(h, turn) == k
  {
    if k < |h| { TurnStartAt(h[..|h| - 1], k, turn); }
  }

  predicate MoodsKept(s: Session, b: Beat) {
    b.after.moods.Keys == s.world.moods.Keys
  }

  /** The records a beat commits. */
  function BeatRecords(s: Session, b: Beat): Records {
    StampAll(Spoken(s.world, NextTurn(s.history), Says(b.player) + b.stages), s.world.tick, s.world.roteiro)
  }

  lemma BeatSpeaks(s: Session, b: Beat)
    requires Speaks(b)
    ensures var added := Spoken(s.world, NextTurn(s.history), Says(b.player) + b.stages);
            && added != []
            && (forall i | 0 <= i < |added| :: added[i].turn == NextTurn(s.history))
            && added[0].snapshot == FirstHeard(s.world, Says(b.player) + b.stages).(tick := 0, roteiro := None)
  {
    var stages := Says(b.player) + b.stages;
    SpokenSnapshots(s.world, NextTurn(s.history), stages);
    if b.player != [] {
      assert stages[0] == Say(b.player[0]) && stages[0] in stages;
    } else {
      var st :| st in b.stages && st.Say?;
      assert st in stages;
    }
  }

  /** A committed beat appends its records, under one new turn number, each carrying the pre-beat clock
      and screenplay. */
  lemma CommitAppends(s: Session, b: Beat)
    requires Speaks(b)
    ensures Commit(s, b) == s.(history := s.history + BeatRecords(s, b), world := b.after, revision := s.revision + 1)
    ensures BeatRecords(s, b) != []
    ensures forall i | 0 <= i < |BeatRecords(s, b)| :: BeatRecords(s, b)[i].turn == NextTurn(s.history)
    ensures var first := FirstHeard(s.world, Says(b.player) + b.stages);
            BeatRecords(s, b)[0].snapshot == s.world.(scene := first.scene, ledgers := first.ledgers)
  {
    var stages := Says(b.player) + b.stages;
    var step := NextTurn(s.history);
    var added := Spoken(s.world, step, stages);
    RunStagesSpoken(s, step, stages);
    BeatSpeaks(s, b);
    StampedSuffix(s.history, added, step, s.world.tick, s.world.roteiro);
    StampAllAt(added, s.world.tick, s.world.roteiro);
    FirstHeardKeeps(s.world, stages);
  }

  /** What is said in the stages, in order. */
  function SaidLines(stages: seq<Stage>): seq<Line> {
    if stages == [] then [] else (if stages[0].Say? then [stages[0].line] else []) + SaidLines(stages[1..])
  }

  /** The record is the line, and its snapshot is the world of `w` up to what stages may change. */
  predicate IsLine(r: TurnRecord, line: Line, w: World) {
    && r.speaker == line.speaker && r.content == line.content && r.kind == line.kind
    && r.audience == line.audience && r.origin == line.origin
    && r.snapshot.moods == w.moods && r.snapshot.pluginState == w.pluginState && r.snapshot.dispositions == w.dispositions
  }

  predicate AreLines(h: Records, lines: seq<Line>, w: World) {
    if h == [] || lines == [] then h == [] && lines == [] else IsLine(h[0], lines[0], w) && AreLines(h[1..], lines[1..], w)
  }

  lemma {:induction false} AreLinesAt(h: Records, lines: seq<Line>, w: World, i: nat)
    requires AreLines(h, lines, w)
    ensures |h| == |lines| && (i < |h| ==> IsLine(h[i], lines[i], w))
  {
    if h != [] { AreLinesAt(h[1..], lines[1..], w, if i > 0 then i - 1 else 0); }
  }

  lemma {:induction false} StillLines(h: Records, lines: seq<Line>, w: World, stage: Stage)
    requires AreLines(h, lines, Onstage(w, stage))
    ensures AreLines(h, lines, w)
  {
    if h != [] { StillLines(h[1..], lines[1..], w, stage); }
  }

  lemma {:induction false} SpokenLines(w: World, step: int, stages: seq<Stage>)
    ensures AreLines(Spoken(w, step, stages), SaidLines(stages), w)
    decreases |stages|
  {
    if stages != [] {
      var next := Onstage(w, stages[0]);
      SpokenLines(next, step, stages[1..]);
      var h, lines := Spoken(next, step, stages[1..]), SaidLines(stages[1..]);
      StillLines(h, lines, w, stages[0]);
      if stages[0].Say? {
        var r := Recorded(w, step, stages[0].line);
        assert ([r] + h)[1..] == h && ([stages[0].line] + lines)[1..] == lines;
        assert AreLines([r] + h, [stages[0].line] + lines, w);
      } else {
        assert Spoken(w, step, stages) == h && SaidLines(stages) == lines;
      }
    }
  }

  /** A committed beat adds one record for every line said, in order: the player's lines and then those of the
      stages, each as it was said, to whom it was said, with the clock, screenplay, moods and plugin state of
      before the beat in its snapshot. */
  lemma RecordsAreTheLines(s: Session, b: Beat)
    ensures var h, lines := BeatRecords(s, b), b.player + SaidLines(b.stages);
            && |h| == |lines|
            && forall i | 0 <= i < |h| ::
                 IsLine(h[i], lines[i], s.world) && h[i].snapshot.tick == s.world.tick && h[i].snapshot.roteiro == s.world.roteiro
  {
    var stages := Says(b.player) + b.stages;
    SaidFirst(b.player, b.stages);
    SpokenLines(s.world, NextTurn(s.history), stages);
    var added := Spoken(s.world, NextTurn(s.history), stages);
    StampAllAt(added, s.world.tick, s.world.roteiro);
    AreLinesAt(added, SaidLines(stages), s.world, 0);
    forall i | 0 <= i < |added| ensures IsLine(added[i], SaidLines(stages)[i], s.world) {
      AreLinesAt(added, SaidLines(stages), s.world, i);
    }
  }

  lemma {:induction false} SaidFirst(player: seq<Line>, stages: seq<Stage>)
    ensures SaidLines(Says(player) + stages) == player + SaidLines(stages)
  {
    if player == [] {
      assert Says(player) + stages == stages;
    } else {
      assert (Says(player) + stages)[1..] == Says(player[1..]) + stages;
      SaidFirst(player[1..], stages);
    }
  }

  /** What the latest stage of each kind set, or what was there. */
  function LatestScene(stages: seq<Stage>, was: Scene): Scene {
    if stages == [] then was
    else if stages[|stages| - 1].Reconcile? then stages[|stages| - 1].scene else LatestScene(stages[..|stages| - 1], was)
  }

  function LatestPlan(stages: seq<Stage>, was: Option<Roteiro>): Option<Roteiro> {
    if stages == [] then was
    else if stages[|stages| - 1].Replan? then stages[|stages| - 1].roteiro else LatestPlan(stages[..|stages| - 1], was)
  }

  function LatestLedgers(stages: seq<Stage>, was: map<string, Json>): map<string, Json> {
    if stages == [] then was
    else if stages[|stages| - 1].Learn? then stages[|stages| - 1].ledgers else LatestLedgers(stages[..|stages| - 1], was)
  }

  function Ticks(stages: seq<Stage>): nat {
    if stages == [] then 0
    else Ticks(stages[..|stages| - 1]) + if stages[|stages| - 1].SkipTime? then stages[|stages| - 1].ticks else 0
  }

  lemma {:induction false} PlayedSnoc(w: World, stages: seq<Stage>, last: Stage)
    ensures Played(w, stages + [last]) == Onstage(Played(w, stages), last)
    decreases |stages|
  {
    var all := stages + [last];
    if stages == [] {
      assert all == [last] && [last][1..] == [];
    } else {
      assert all[1..] == stages[1..] + [last];
      PlayedSnoc(Onstage(w, stages[0]), stages[1..], last);
    }
  }

  /** `now` is what the stages leave of `w`: the scene, screenplay and ledgers the latest of each kind set, the clock
      by all skips on, and everything else as it was. */
  predicate LeftBy(now: World, w: World, stages: seq<Stage>) {
    && now.scene == LatestScene(stages, w.scene) && now.roteiro == LatestPlan(stages, w.roteiro)
    && now.ledgers == LatestLedgers(stages, w.ledgers) && now.tick == w.tick + Ticks(stages)
    && now.moods == w.moods && now.pluginState == w.pluginState && now.dispositions == w.dispositions
  }

  lemma LeftByMore(now: World, w: World, stages: seq<Stage>, last: Stage)
    requires LeftBy(now, w, stages)
    ensures LeftBy(Onstage(now, last), w, stages + [last])
  {
    var all := stages + [last];
    assert all[..|all| - 1] == stages && all[|all| - 1] == last;
  }

  lemma {:induction false} PlayedExact(w: World, stages: seq<Stage>)
    ensures LeftBy(Played(w, stages), w, stages)
  {
    if stages != [] {
      var n := |stages| - 1;
      assert stages == stages[..n] + [stages[n]];
      PlayedExact(w, stages[..n]);
      PlayedSnoc(w, stages[..n], stages[n]);
      LeftByMore(Played(w, stages[..n]), w, stages[..n], stages[n]);
    }
  }

  /** Each line's record holds the world as the stages before that line left it. */
  lemma {:induction false} SpokenAt(w: World, step: int, stages: seq<Stage>, k: nat)
    requires k < |stages| && stages[k].Say?
    ensures var j, h := |SaidLines(stages[..k])|, Spoken(w, step, stages);
            j < |h| && h[j] == Recorded(Played(w, stages[..k]), step, stages[k].line)
    decreases |stages|
  {
    var first := if stages[0].Say? then [Recorded(w, step, stages[0].line)] else [];
    var rest := Spoken(Onstage(w, stages[0]), step, stages[1..]);
    if k > 0 {
      SpokenAt(Onstage(w, stages[0]), step, stages[1..], k - 1);
      assert stages[1..][..k - 1] == stages[..k][1..];
      var j := |SaidLines(stages[..k][1..])|;
      assert (first + rest)[|first| + j] == rest[j];
    }
  }

  /** The records of a beat: the snapshot of the line at a stage has the scene and ledgers the stages before it
      left. */
  lemma SnapshotsFollowTheStages(s: Session, b: Beat, k: nat)
    requires k < |b.stages| && b.stages[k].Say?
    ensures var j, h := |b.player| + |SaidLines(b.stages[..k])|, BeatRecords(s, b);
            j < |h| && h[j].snapshot.scene == Played(s.world, b.stages[..k]).scene
                    && h[j].snapshot.ledgers == Played(s.world, b.stages[..k]).ledgers
  {
    var stages, n := Says(b.player) + b.stages, |b.player|;
    assert stages[..n + k] == Says(b.player) + b.stages[..k];
    SaidFirst(b.player, b.stages[..k]);
    SpokenAt(s.world, NextTurn(s.history), stages, n + k);
    SaysPlayed(s.world, b.player, b.stages[..k]);
    StampAllAt(Spoken(s.world, NextTurn(s.history), stages), s.world.tick, s.world.roteiro);
  }

  lemma {:induction false} SaysPlayed(w: World, player: seq<Line>, stages: seq<Stage>)
    ensures Played(w, Says(player) + stages) == Played(w, stages)
  {
    if player == [] {
      assert Says(player) + stages == stages;
    } else {
      assert (Says(player) + stages)[1..] == Says(player[1..]) + stages;
      SaysPlayed(w, player[1..], stages);
    }
  }

  /** A beat in which nobody speaks adds no record. */
  lemma SilentBeat(s: Session, b: Beat)
    requires !Speaks(b)
    ensures BeatRecords(s, b) == [] && Commit(s, b).history == s.history
    ensures Commit(s, b).summary == s.summary && Commit(s, b).stack == s.stack && Commit(s, b).written == s.written
  {
    var stages := Says(b.player) + b.stages;
    var step := NextTurn(s.history);
    forall st | st in stages ensures !st.Say? {
      var i :| 0 <= i < |stages| && stages[i] == st;
      assert b.player == [] && stages[i] == b.stages[i] && b.stages[i] in b.stages;
    }
    RunStagesSpoken(s, step, stages);
    SpokenSnapshots(s.world, step, stages);
    assert s.history + [] == s.history;
  }

  /** Undo takes off one block of records and reads the first one's snapshot. */
  lemma UndoBlock(s: Session, h: Records, block: Records, turn: int)
    requires s.history == h + block && block != []
    requires forall i | 0 <= i < |block| :: block[i].turn == turn
    requires h == [] || h[|h| - 1].turn != turn
    ensures Undo(s) == s.(history := h, revision := s.revision + 1,
                          world := block[0].snapshot.(moods := Undo(s).world.moods))
    ensures var was := block[0].snapshot.moods;
            && Undo(s).world.moods.Keys == s.world.moods.Keys
            && forall id | id in s.world.moods :: Undo(s).world.moods[id] == if id in was then was[id] else s.world.moods[id]
  {
    var all := s.history;
    SnocParts(h, block);
    TurnStartAt(all[..|all| - 1], |h|, turn);
    assert all[..|h|] == h && all[|h|] == block[0];
  }

  /** Undoing one beat: everything before it is back, except that the scene and the ledgers are as the
      beat's first record found them. */
  lemma UndoOneBeat(s: Session, b: Beat)
    requires Speaks(b) && MoodsKept(s, b)
    ensures var first := FirstHeard(s.world, Says(b.player) + b.stages);
            var u := Undo(Commit(s, b));
            && Commit(s, b).history != []
            && u.history == s.history && u.summary == s.summary && u.stack == s.stack
            && u.world == s.world.(scene := first.scene, ledgers := first.ledgers)
  {
    CommitAppends(s, b);
    UndoBlock(Commit(s, b), s.history, BeatRecords(s, b), NextTurn(s.history));
    assert Undo(Commit(s, b)).world.moods == s.world.moods;
  }

  /** The scene and ledgers come back exactly when no stage changed them before the first record; a
      player's own line is such a first record. */
  lemma UndoIsComplete(s: Session, b: Beat)
    requires Speaks(b) && MoodsKept(s, b)
    ensures b.player != [] ==> Undo(Commit(s, b)).world == s.world
    ensures Undo(Commit(s, b)).world == s.world <==>
      var first := FirstHeard(s.world, Says(b.player) + b.stages);
      first.scene == s.world.scene && first.ledgers == s.world.ledgers
  {
    UndoOneBeat(s, b);
    if b.player != [] {
      assert (Says(b.player) + b.stages)[0] == Say(b.player[0]);
    }
  }

  // ---- the order a beat really has -----------------------------------------

  /** A routed character: its ledger is refreshed, then what it says is recorded. */
  datatype Reply = Reply(ledgers: map<string, Json>, lines: seq<Line>)

  function Replies(replies: seq<Reply>): seq<Stage> {
    if replies == [] then [] else [Learn(replies[0].ledgers)] + Says(replies[0].lines) + Replies(replies[1..])
  }

  /** What follows canon and the clock: the speakers' ledgers, the narration, the replies, and the
      audible speech. */
  function Aftermath(ledgers: map<string, Json>, narration: Option<Line>, replies: seq<Reply>, voiced: seq<Line>): seq<Stage> {
    [Learn(ledgers)] + (if narration.Some? then [Say(narration.value)] else []) + Replies(replies) + Says(voiced)
  }

  function CodeOrder(roteiro: Option<Roteiro>, canon: Scene, ticks: nat, aftermath: seq<Stage>): seq<Stage> {
    [Replan(roteiro)] + ([Reconcile(canon)] + ([SkipTime(ticks)] + aftermath))
  }

  lemma FirstHeardCons(w: World, stage: Stage, tail: seq<Stage>)
    requires !stage.Say?
    ensures FirstHeard(w, [stage] + tail) == FirstHeard(Onstage(w, stage), tail)
  {
    assert ([stage] + tail)[1..] == tail;
  }

  lemma {:induction false} LaterStagesKeepScene(w: World, stages: seq<Stage>)
    requires forall st | st in stages :: st.Say? || st.Learn?
    ensures FirstHeard(w, stages).scene == w.scene
    decreases |stages|
  {
    if stages != [] && !stages[0].Say? {
      assert stages[0] in stages;
      LaterStagesKeepScene(Onstage(w, stages[0]), stages[1..]);
    }
  }

  lemma {:induction false} RepliesOnlySpeak(replies: seq<Reply>)
    ensures forall st | st in Replies(replies) :: st.Say? || st.Learn?
  {
    if replies != [] { RepliesOnlySpeak(replies[1..]); }
  }

  lemma AftermathOnlySpeaks(ledgers: map<string, Json>, narration: Option<Line>, replies: seq<Reply>, voiced: seq<Line>)
    ensures forall st | st in Aftermath(ledgers, narration, replies, voiced) :: st.Say? || st.Learn?
  {
    RepliesOnlySpeak(replies);
  }

  /** The first record of a beat without player lines finds the scene canon left. */
  lemma CodeOrderHearsCanon(w: World, roteiro: Option<Roteiro>, canon: Scene, ticks: nat, aftermath: seq<Stage>)
    requires forall st | st in aftermath :: st.Say? || st.Learn?
    ensures FirstHeard(w, CodeOrder(roteiro, canon, ticks, aftermath)).scene == canon
  {
    var w1 := Onstage(w, Replan(roteiro));
    var w2 := Onstage(w1, Reconcile(canon));
    FirstHeardCons(w, Replan(roteiro), [Reconcile(canon)] + ([SkipTime(ticks)] + aftermath));
    FirstHeardCons(w1, Reconcile(canon), [SkipTime(ticks)] + aftermath);
    FirstHeardCons(w2, SkipTime(ticks), aftermath);
    LaterStagesKeepScene(Onstage(w2, SkipTime(ticks)), aftermath);
  }

  /** Undoing a skip keeps the scene canon left: it gives the old scene back only if canon changed
      nothing. */
  lemma SkipUndoKeepsCanon(s: Session, b: Beat, roteiro: Option<Roteiro>, canon: Scene, ticks: nat, ledgers: map<string, Json>,
                           narration: Option<Line>, replies: seq<Reply>, voiced: seq<Line>)
    requires b.player == [] && Speaks(b) && MoodsKept(s, b)
    requires b.stages == CodeOrder(roteiro, canon, ticks, Aftermath(ledgers, narration, replies, voiced))
    ensures Undo(Commit(s, b)).world.scene == canon
  {
    assert Says(b.player) + b.stages == b.stages;
    UndoOneBeat(s, b);
    AftermathOnlySpeaks(ledgers, narration, replies, voiced);
    CodeOrderHearsCanon(s.world, roteiro, canon, ticks, Aftermath(ledgers, narration, replies, voiced));
  }

  // ---- many beats ----------------------------------------------------------

  function Commits(s: Session, bs: seq<Beat>): Session {
    if bs == [] then s else Commit(Commits(s, bs[..|bs| - 1]), bs[|bs| - 1])
  }

  function Undos(s: Session, k: nat): Session
    decreases k
  {
    if k == 0 then s else Undos(Undo(s), k - 1)
  }

  /** Equal up to the scene, the ledgers and the revision counter. */
  predicate SameStory(a: Session, b: Session) {
    && a.history == b.history && a.summary == b.summary && a.stack == b.stack
    && a.world == b.world.(scene := a.world.scene, ledgers := a.world.ledgers)
  }

  lemma {:induction false} UndosAgree(a: Session, b: Session, k: nat)
    requires SameStory(a, b)
    ensures SameStory(Undos(a, k), Undos(b, k))
    ensures k > 0 && a.history != [] ==> Undos(a, k).world == Undos(b, k).world
    decreases k
  {
    if k > 0 && a.history != [] {
      UndosAgree(Undo(a), Undo(b), k - 1);
      if k > 1 && Undo(a).history == [] {
        EmptyUndos(Undo(a), k - 1);
        EmptyUndos(Undo(b), k - 1);
      }
    } else if k > 0 {
      EmptyUndos(a, k);
      EmptyUndos(b, k);
    }
  }

  lemma {:induction false} EmptyUndos(s: Session, k: nat)
    requires s.history == []
    ensures Undos(s, k) == s
  {
    if k > 0 { EmptyUndos(s, k - 1); }
  }

  /** k undos after k beats: the story of k beats ago, and the whole world of k beats ago when the
      first of those beats began with the player. */
  lemma {:induction false} UndoManyBeats(s: Session, bs: seq<Beat>)
    requires forall b | b in bs :: Speaks(b) && b.after.moods.Keys == s.world.moods.Keys
    ensures SameStory(Undos(Commits(s, bs), |bs|), s)
    ensures bs != [] && bs[0].player != [] ==> Undos(Commits(s, bs), |bs|).world == s.world
    ensures bs != [] ==> Commits(s, bs).world.moods.Keys == s.world.moods.Keys && Commits(s, bs).history != []
  {
    if bs != [] {
      var n := |bs| - 1;
      var last := bs[n];
      assert last in bs;
      UndoManyBeats(s, bs[..n]);
      var before := Commits(s, bs[..n]);
      UndoOneBeat(before, last);
      UndosAgree(Undo(Commit(before, last)), before, n);
      if n == 0 {
        UndoIsComplete(s, last);
      } else {
        assert bs[..n][0] == bs[0];
      }
    }
  }
}
