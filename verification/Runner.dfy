/** The runner's methods on one loaded game, each against the function that says what it does. */
module Runner {
  import opened Wrappers
  import opened Json
  import opened Text
  import opened Model
  import opened History
  import opened PluginDelta
  import opened Perception
  import opened SceneFacts
  import Canon
  import Confidentiality
  import Ordering
  import Sessions
  import UndoTheorems
  import StoryClock
  import Watcher
  import VoicedLines

  class Game {
    const cast: Cast
    const controlled: string
    var history: Records
    var scene: Scene
    var moods: map<string, string>
    var pluginState: Tree
    var ledgers: map<string, Json>
    var dispositions: map<string, Json>
    var tick: int
    var roteiro: Option<Roteiro>
    var summary: Text
    var stack: seq<Sessions.Checkpoint>
    var written: nat
    var revision: nat
    var watcherQuiet: int
    var watcherLast: int
    var watcherSilence: bool

    constructor (cast: Cast, controlled: string, scene: Scene, moods: map<string, string>)
      ensures View() == Sessions.Session([], World(scene, moods, map[], map[], map[], 0, None), [], [], 0, 0)
      ensures Counters() == Watcher.Counters(0, 0, -999, false)
      ensures this.cast == cast && this.controlled == controlled
    {
      this.cast, this.controlled, this.scene, this.moods := cast, controlled, scene, moods;
      history, pluginState, ledgers, dispositions := [], map[], map[], map[];
      tick, roteiro, summary, stack, written, revision := 0, None, [], [], 0, 0;
      watcherQuiet, watcherLast, watcherSilence := 0, -999, false;
    }

    function Now(): World
      reads this
    {
      World(scene, moods, pluginState, ledgers, dispositions, tick, roteiro)
    }

    function View(): Sessions.Session
      reads this
    {
      Sessions.Session(history, Now(), summary, stack, written, revision)
    }

    function Counters(): Watcher.Counters
      reads this
    {
      Watcher.Counters(tick, watcherQuiet, watcherLast, watcherSilence)
    }

    // ---- records -----------------------------------------------------------

    /** The audience part of `_append_history`. */
    method ComputeAudience(speaker: string, kind: ContentType, supplied: Option<seq<string>>, authority: Option<Origin>)
      returns (a: Audience)
      ensures a == AudienceOf(scene, cast, controlled, speaker, kind, supplied, authority)
    {
      if authority.Some? { return Audience(supplied, authority.value); }
      var origin := if supplied.Some? then Whisper else Zone;
      var subject := SubjectOf(speaker, controlled);
      if |scene.zones| == 0 || !Spatial(kind) || subject !in cast { return Audience(supplied, origin); }
      var eligible := EligibleWitnesses(scene, cast, subject);
      if supplied.Some? {
        var addressed := set id | id in supplied.value;
        var ids := Ordering.SortSet(addressed * (eligible + {subject}));
        return Audience(Some(ids), origin);
      }
      if eligible != PresentOthers(scene, cast, subject) {
        var ids := Ordering.SortSet(eligible);
        return Audience(Some(ids), origin);
      }
      return Audience(None, origin);
    }

    method AppendHistory(speaker: string, content: Text, kind: ContentType, step: int,
                         supplied: Option<seq<string>>, authority: Option<Origin>)
      modifies this`history
      ensures var a := AudienceOf(scene, cast, controlled, speaker, kind, supplied, authority);
              history == old(history) + [Sessions.Recorded(Now(), step, Sessions.Line(speaker, content, kind, a.ids, a.origin))]
    {
      var a := ComputeAudience(speaker, kind, supplied, authority);
      history := history + [TurnRecord(step, speaker, content, kind, a.ids, a.origin,
                                       World(scene, moods, pluginState, ledgers, dispositions, 0, None))];
    }

    /** `_persist_audible_speech`. */
    method PersistAudibleSpeech(events: seq<Event>, step: int, echoes: VoicedLines.Echoes)
      modifies this`history
      ensures history == VoicedLines.Voice(old(history), events, Now(), cast, step, echoes)
    {
      for i := 0 to |events|
        invariant history == VoicedLines.Voice(old(history), events[..i], Now(), cast, step, echoes)
      {
        assert events[..i + 1][..i] == events[..i];
        var spoken := Strip(events[i].content);
        if events[i].kind == "audible_speech" && spoken != [] && events[i].subject in cast
           && !echoes(history, events[i].subject, spoken)
        {
          var heard := ChooseListeners(events[i], scene, cast);
          var listeners := if heard.Some? then set id | id in heard.value else PresentOthers(scene, cast, events[i].subject);
          var leaks := Leaks(history, spoken, listeners, scene, cast);
          if !leaks {
            AppendHistory(events[i].subject, spoken, Speech, step, heard, Some(Zone));
          }
        }
      }
      assert events[..|events|] == events;
    }

    method StampUndoAnchor(step: int, anchorTick: int, anchorRoteiro: Option<Roteiro>)
      modifies this`history
      ensures history == Sessions.Stamped(old(history), step, anchorTick, anchorRoteiro)
    {
      history := StampTrailing(history, step, anchorTick, anchorRoteiro);
    }

    // ---- one beat ----------------------------------------------------------

    /** Lines are recorded and the other stages update their field, in order. */
    method PlayStages(step: int, stages: seq<Sessions.Stage>)
      modifies this
      ensures View() == Sessions.RunStages(old(View()), step, stages)
    {
      for i := 0 to |stages|
        invariant Sessions.RunStages(old(View()), step, stages) == Sessions.RunStages(View(), step, stages[i..])
      {
        assert stages[i..][0] == stages[i] && stages[i..][1..] == stages[i + 1..];
        PlayStage(step, stages[i]);
      }
    }

    method PlayStage(step: int, stage: Sessions.Stage)
      modifies this
      ensures View() == Sessions.RunStage(old(View()), step, stage)
    {
      match stage {
        case Say(line) => history := history + [Sessions.Recorded(Now(), step, line)];
        case Replan(r) => roteiro := r;
        case Reconcile(s) => scene := s;
        case SkipTime(t) => tick := tick + t;
        case Learn(l) => ledgers := l;
      }
    }

    /** One beat of `player_turn`: when it left no trace it is not saved, and the caller drops this game. */
    method PlayBeat(b: Sessions.Beat) returns (saved: bool)
      requires Chronological(history)
      modifies this
      ensures saved ==> View() == Sessions.Commit(old(View()), b)
      ensures !saved ==> Sessions.Commit(old(View()), b) == old(View())
    {
      ghost var before := View();
      var step := NextTurn(history);
      var anchorTick, anchorRoteiro := tick, roteiro;
      PlayStages(step, Sessions.Says(b.player) + b.stages);
      var recorded := exists i | 0 <= i < |history| :: history[i].turn == step;
      TraceMeansSpoken(before, b);
      if !recorded && !b.told { return false; }
      CommitIs(before, b);
      var stamped := StampTrailing(history, step, anchorTick, anchorRoteiro);
      AdoptState(View().(history := stamped, world := b.after, revision := revision + 1));
      return true;
    }

    // ---- undo --------------------------------------------------------------

    method UndoTurn() returns (undone: bool)
      modifies this
      ensures View() == Sessions.Undo(old(View())) && undone == (old(history) != [])
      ensures Counters() == old(Counters()).(tick := tick)
    {
      if history == [] { return false; }
      var rest, restore := PopTurn(history);
      var mood := RestoreMoods(moods, restore.snapshot.moods);
      UndoIs(View(), rest, restore, mood);
      AdoptState(View().(history := rest, world := restore.snapshot.(moods := mood), revision := revision + 1));
      return true;
    }

    method Reinstate(w: World)
      modifies this`scene, this`moods, this`pluginState, this`ledgers, this`dispositions, this`tick, this`roteiro
      ensures Now() == w
    {
      scene, moods, pluginState, ledgers := w.scene, w.moods, w.pluginState, w.ledgers;
      dispositions, tick, roteiro := w.dispositions, w.tick, w.roteiro;
    }

    // ---- compaction --------------------------------------------------------

    /** `_adopt_state`: every field of another game state. */
    method AdoptState(s: Sessions.Session)
      modifies this
      ensures View() == s && Counters() == old(Counters()).(tick := s.world.tick)
    {
      Reinstate(s.world);
      history, summary, stack, written, revision := s.history, s.summary, s.stack, s.written, s.revision;
    }

    method CompactLoadedGame(configured: nat, pressure: bool, newSummary: Text, plugins: Tree) returns (compacted: bool)
      requires configured >= 1
      modifies this
      ensures View() == Sessions.Compact(old(View()), configured, pressure, newSummary, plugins)
      ensures compacted == Sessions.Compacts(old(View()), configured, pressure)
    {
      var draft := CompactedCopy(View(), configured, pressure, newSummary, plugins);
      if draft.None? { return false; }
      AdoptState(draft.value);
      return true;
    }

    method RestoreLastCompaction(resolver: Sessions.Resolver) returns (restored: bool)
      modifies this
      ensures View() == Sessions.Restore(old(View()), resolver)
      ensures restored == Sessions.Restorable(old(View()), resolver)
    {
      var draft := RestoredCopy(View(), resolver);
      if draft.None? { return false; }
      AdoptState(draft.value);
      return true;
    }

    // ---- canon -------------------------------------------------------------

    method UpdateScene(u: SceneUpdate, admits: Admission)
      modifies this`scene
      ensures scene == SceneFacts.UpdateScene(old(scene), u, admits)
    {
      if u.location.Some? && Strip(u.location.value) != [] {
        var at := Strip(u.location.value);
        if at != scene.location {
          scene := scene.(location := at, facts := []);
        }
      }
      if u.timeOfDay.Some? && Strip(u.timeOfDay.value) != [] {
        scene := scene.(timeOfDay := Strip(u.timeOfDay.value));
      }
      ghost var base := scene;
      for i := 0 to |u.writes|
        invariant scene == base.(facts := WriteFacts(base.facts, u.writes[..i], admits))
      {
        assert u.writes[..i + 1][..i] == u.writes[..i];
        var w := u.writes[i];
        if w.value.None? {
          scene := scene.(facts := Remove(scene.facts, w.key));
        } else if HasKey(scene.facts, w.key) || admits(w.key, scene.facts) {
          scene := scene.(facts := Put(scene.facts, w.key, w.value.value));
          EvictOldestFacts();
        }
      }
      assert u.writes[..|u.writes|] == u.writes;
    }

    method EvictOldestFacts()
      modifies this`scene
      ensures scene == old(scene).(facts := Evicted(old(scene).facts))
    {
      while |scene.facts| > MAX_PHYSICAL_FACTS
        invariant scene == old(scene).(facts := scene.facts)
        invariant |scene.facts| >= MAX_PHYSICAL_FACTS || scene.facts == old(scene).facts
        invariant |scene.facts| <= |old(scene).facts|
        invariant scene.facts == old(scene).facts[|old(scene).facts| - |scene.facts|..]
      {
        scene := scene.(facts := scene.facts[1..]);
      }
    }

    method OpenNewZones(moves: seq<Canon.Move>, news: seq<string>)
      modifies this`scene
      ensures scene == Canon.OpenZones(old(scene), moves, news)
    {
      for i := 0 to |news|
        invariant scene == Canon.OpenZones(old(scene), moves, news[..i])
      {
        assert news[..i + 1][..i] == news[..i];
        var zone := news[i];
        if zone !in scene.zones {
          OpenNewZone(moves, zone);
        }
      }
      assert news[..|news|] == news;
    }

    method OpenNewZone(moves: seq<Canon.Move>, zone: string)
      requires zone !in scene.zones
      modifies this`scene
      ensures scene == Canon.OpenZone(old(scene), moves, zone)
    {
      var origins := Canon.Origins(scene, moves, zone);
      var audible := Ordering.SortSet(origins);
      Ordering.SortedIsSorted(origins);
      var zones := LinkOrigins(scene.zones[zone := audible], audible, zone);
      ZoneOpened(scene, moves, zone, audible, zones);
      scene := scene.(zones := zones);
    }

    method ApplyCanon(u: Option<SceneUpdate>, moves: seq<Canon.Move>, links: seq<Canon.Link>, admits: Admission, stage: string)
      modifies this`scene
      ensures scene == Canon.ApplyCanon(old(scene), cast, u, moves, links, admits, stage)
    {
      if u.Some? {
        UpdateScene(Canon.ClampUpdate(scene, cast, u.value, moves), admits);
      }
      var news := Canon.NewZones(scene, moves);
      if news != [] && |scene.zones| == 0 {
        scene := Canon.NameStage(scene, cast, stage);
      }
      OpenNewZones(moves, news);
      ghost var split := scene;
      for i := 0 to |moves|
        invariant scene == split.(positions := Canon.Placed(split.positions, moves[..i]))
      {
        assert moves[..i + 1][..i] == moves[..i];
        scene := scene.(positions := scene.positions[moves[i].mover := moves[i].zone]);
      }
      assert moves[..|moves|] == moves;
      for i := 0 to |links|
        invariant scene == split.(positions := Canon.Placed(split.positions, moves), zones := Canon.Linked(split.zones, links[..i]))
      {
        assert links[..i + 1][..i] == links[..i];
        if links[i].zone in scene.zones {
          scene := scene.(zones := scene.zones[links[i].zone := Canon.Known(links[i].audible, scene.zones.Keys)]);
        }
      }
      assert links[..|links|] == links;
    }

    // ---- roteiro and watcher -----------------------------------------------

    /** `_maintain_roteiro`; when it raises, the caller discards this game. */
    method MaintainRoteiro(turn: int, first: bool, reply: StoryClock.Reply, matched: StoryClock.Matcher,
                           similar: StoryClock.Similar) returns (outcome: StoryClock.Maintained)
      modifies this`roteiro
      ensures outcome == StoryClock.Maintain(old(roteiro), history, tick, turn, first, reply, cast, controlled, matched, similar)
      ensures outcome.Maintained? ==> roteiro == outcome.roteiro
    {
      var beat := StoryClock.ValidateBeat(reply.beat, cast, controlled);
      if roteiro.None? {
        if reply.premise == "" || StoryClock.ValidateActs(StoryClock.FirstFive(reply.acts)) == [] || beat.None? {
          return StoryClock.Raised;
        }
        roteiro := Some(StoryClock.Compile(beat.value, reply, turn, tick));
        return StoryClock.Maintained(roteiro, StoryClock.Event(None, false, true));
      }
      var r := roteiro.value;
      if first {
        r := r.(beatActionsElapsed := r.beatActionsElapsed + 1);
        roteiro := Some(r);
      }
      if StoryClock.DeadlineDue(r, tick) {
        if beat.None? { return StoryClock.Raised; }
        var n := ExpireAct(r, beat.value, reply, turn, tick, similar);
        roteiro := Some(n);
        return StoryClock.Maintained(roteiro, StoryClock.Event(Some(r.actIndex), false, true));
      }
      var v := StoryClock.Evaluate(r, history, controlled, NextTurn(history), matched);
      if v.decision.Stay? {
        return StoryClock.Maintained(roteiro, StoryClock.Event(None, false, false));
      }
      if beat.None? { return StoryClock.Raised; }
      var n := StoryClock.Replan(r, v, beat.value, reply, turn, tick, similar);
      roteiro := Some(n);
      return StoryClock.Maintained(roteiro, StoryClock.Event(
        None, v.decision.ReplanBeat? && v.reason in {StoryClock.Stalled, StoryClock.Drifted},
        v.decision.ReplanAct? || n.actIndex != r.actIndex));
    }

    method AuditTurnForWatcher(verdict: Option<set<string>>)
      modifies this`watcherQuiet, this`watcherSilence
      ensures Counters() == Watcher.Audit(old(Counters()), Watcher.Moved(Watcher.Normalize(verdict)))
    {
      if Watcher.Moved(Watcher.Normalize(verdict)) {
        watcherQuiet, watcherSilence := 0, false;
      } else {
        watcherQuiet := watcherQuiet + 1;
      }
    }

    method MaybeWatcherRecovery(config: Watcher.Config, grounded: bool) returns (signal: Watcher.Signal)
      modifies this`watcherQuiet, this`watcherSilence, this`watcherLast
      ensures (Counters(), signal) == Watcher.Recover(old(Counters()), config, grounded)
    {
      var rung := Watcher.SelectStep(
        Watcher.Ladder(watcherQuiet, tick - watcherLast, false, false, false, watcherSilence), config);
      if rung.AllowSilence? {
        watcherSilence := true;
        return Watcher.Silence;
      }
      if !rung.CausalDisruption? || !grounded { return Watcher.Nothing; }
      watcherLast, watcherQuiet, watcherSilence := tick, 0, false;
      return Watcher.Disruption;
    }
  }

  method ChooseListeners(e: Event, scene: Scene, cast: Cast) returns (heard: Option<seq<string>>)
    ensures heard == HeardBy(e, scene, cast)
  {
    var witnesses := set id | id in e.witnesses && id in cast;
    if PresentOthers(scene, cast, e.subject) <= witnesses { return None; }
    var ids := Ordering.SortSet(witnesses);
    return Some(ids);
  }

  /** Redaction for some listener would change the line. */
  method Leaks(history: Records, spoken: Text, listeners: set<string>, scene: Scene, cast: Cast) returns (leaks: bool)
    ensures leaks <==> exists v | v in listeners ::
              Confidentiality.Redact(spoken, Confidentiality.HiddenWhisperTokens(history, v, cast, scene)) != spoken
  {
    var rest := listeners;
    while rest != {}
      invariant rest <= listeners
      invariant forall v | v in listeners - rest ::
                  Confidentiality.Redact(spoken, Confidentiality.HiddenWhisperTokens(history, v, cast, scene)) == spoken
    {
      var v :| v in rest;
      var secret := Confidentiality.CollectHiddenWhispers(history, v, cast, scene);
      if Confidentiality.Redact(spoken, secret) != spoken { return true; }
      rest := rest - {v};
    }
    return false;
  }

  /** Each origin comes to hear the new zone. */
  method LinkOrigins(before: Canon.Zones, origins: seq<string>, zone: string) returns (zones: Canon.Zones)
    requires forall o | o in origins :: o in before && o != zone
    requires forall i, j | 0 <= i < j < |origins| :: origins[i] != origins[j]
    ensures zones.Keys == before.Keys
    ensures forall z | z in before ::
              zones[z] == if z in origins && zone !in before[z] then before[z] + [zone] else before[z]
  {
    zones := before;
    for i := 0 to |origins|
      invariant zones.Keys == before.Keys
      invariant forall z | z in before ::
                  zones[z] == if z in origins[..i] && zone !in before[z] then before[z] + [zone] else before[z]
    {
      var origin := origins[i];
      assert origin in origins && origins[..i + 1] == origins[..i] + [origin];
      assert origin !in origins[..i];
      if zone !in zones[origin] {
        zones := zones[origin := zones[origin] + [zone]];
      }
    }
    assert origins[..|origins|] == origins;
  }

  lemma ZoneOpened(scene: Scene, moves: seq<Canon.Move>, zone: string, audible: seq<string>, zones: Canon.Zones)
    requires zone !in scene.zones && audible == Ordering.Sorted(Canon.Origins(scene, moves, zone))
    requires zones.Keys == scene.zones.Keys + {zone}
    requires forall z | z in zones ::
               zones[z] == if z in audible && zone !in scene.zones[zone := audible][z] then scene.zones[zone := audible][z] + [zone]
                           else scene.zones[zone := audible][z]
    ensures scene.(zones := zones) == Canon.OpenZone(scene, moves, zone)
  {
    Ordering.SortedIsSorted(Canon.Origins(scene, moves, zone));
    var after := Canon.OpenZone(scene, moves, zone).zones;
    forall z | z in zones ensures zones[z] == after[z] {
      assert z in audible <==> z in Canon.Origins(scene, moves, zone);
    }
    assert zones == after;
  }

  /** The pop loop of an undo: the history without its last turn, and that turn's first record. */
  method PopTurn(h: Records) returns (rest: Records, restore: TurnRecord)
    requires h != []
    ensures var k := Sessions.TurnStart(h[..|h| - 1], h[|h| - 1].turn);
            rest == h[..k] && restore == h[k]
  {
    var last := h[|h| - 1].turn;
    restore := h[|h| - 1];
    rest := h[..|h| - 1];
    while rest != [] && rest[|rest| - 1].turn == last
      invariant |rest| < |h| && rest == h[..|rest|] && restore == h[|rest|]
      invariant Sessions.TurnStart(h[..|h| - 1], last) == Sessions.TurnStart(rest, last)
    {
      restore := rest[|rest| - 1];
      rest := rest[..|rest| - 1];
    }
  }

  /** A record of the step exists exactly when somebody spoke. */
  lemma TraceMeansSpoken(s: Sessions.Session, b: Sessions.Beat)
    requires Chronological(s.history)
    ensures var step := NextTurn(s.history);
            var h := Sessions.RunStages(s, step, Sessions.Says(b.player) + b.stages).history;
            (exists i :: 0 <= i < |h| && h[i].turn == step) <==> Sessions.Speaks(b)
  {
    var step := NextTurn(s.history);
    var stages := Sessions.Says(b.player) + b.stages;
    UndoTheorems.RunStagesSpoken(s, step, stages);
    UndoTheorems.SpokenSnapshots(s.world, step, stages);
    var h := s.history + UndoTheorems.Spoken(s.world, step, stages);
    if Sessions.Speaks(b) {
      UndoTheorems.BeatSpeaks(s, b);
      assert h[|s.history|].turn == step;
    } else {
      forall st | st in stages ensures !st.Say? {
        var i :| 0 <= i < |stages| && stages[i] == st;
        assert b.player == [] && stages[i] == b.stages[i] && b.stages[i] in b.stages;
      }
      forall i | 0 <= i < |h| ensures h[i].turn != step {
        assert s.history[i].turn <= s.history[|s.history| - 1].turn;
      }
    }
  }

  lemma CommitIs(s: Sessions.Session, b: Sessions.Beat)
    requires Sessions.Speaks(b) || b.told
    ensures var step := NextTurn(s.history);
            var played := Sessions.RunStages(s, step, Sessions.Says(b.player) + b.stages);
            Sessions.Commit(s, b)
            == played.(history := Sessions.Stamped(played.history, step, s.world.tick, s.world.roteiro), world := b.after,
                       revision := s.revision + 1)
            && played.revision == s.revision
  {
    UndoTheorems.RunStagesSpoken(s, NextTurn(s.history), Sessions.Says(b.player) + b.stages);
  }

  lemma UndoIs(s: Sessions.Session, rest: Records, restore: TurnRecord, mood: map<string, string>)
    requires s.history != []
    requires var k := Sessions.TurnStart(s.history[..|s.history| - 1], s.history[|s.history| - 1].turn);
             rest == s.history[..k] && restore == s.history[k]
    requires mood == Sessions.PutBack(s.world.moods, restore.snapshot.moods)
    ensures Sessions.Undo(s)
         == s.(history := rest, world := restore.snapshot.(moods := mood), revision := s.revision + 1)
  {
  }

  method RestoreMoods(moods: map<string, string>, snapshot: map<string, string>) returns (r: map<string, string>)
    ensures r == Sessions.PutBack(moods, snapshot)
  {
    r := moods;
    var rest := snapshot.Keys;
    while rest != {}
      invariant rest <= snapshot.Keys && r.Keys == moods.Keys
      invariant forall id | id in moods :: r[id] == if id in snapshot && id !in rest then snapshot[id] else moods[id]
    {
      var id :| id in rest;
      if id in r {
        r := r[id := snapshot[id]];
      }
      rest := rest - {id};
    }
  }

  method StampTrailing(h: Records, step: int, tick: int, roteiro: Option<Roteiro>) returns (r: Records)
    ensures r == Sessions.Stamped(h, step, tick, roteiro)
  {
    var rest := h;
    var tail: Records := [];
    while rest != [] && rest[|rest| - 1].turn == step
      invariant Sessions.Stamped(h, step, tick, roteiro) == Sessions.Stamped(rest, step, tick, roteiro) + tail
      decreases |rest|
    {
      StampedOne(rest, step, tick, roteiro);
      tail := [Sessions.Stamp(rest[|rest| - 1], tick, roteiro)] + tail;
      rest := rest[..|rest| - 1];
    }
    r := rest + tail;
  }

  lemma StampedOne(h: Records, step: int, tick: int, roteiro: Option<Roteiro>)
    requires h != [] && h[|h| - 1].turn == step
    ensures Sessions.Stamped(h, step, tick, roteiro)
         == Sessions.Stamped(h[..|h| - 1], step, tick, roteiro) + [Sessions.Stamp(h[|h| - 1], tick, roteiro)]
  {
  }

  /** The first retained turn, or None when the window holds everything. */
  method ChooseCutoff(h: Records, configured: nat, pressure: bool) returns (cutoff: Option<int>)
    requires configured >= 1
    ensures var n := |DistinctTurns(h)|;
            var keep := KeepRecent(configured, n, pressure);
            && (cutoff.Some? <==> n > keep)
            && (cutoff.Some? ==> 1 <= keep && h != [] && cutoff.value == Cutoff(h, keep))
  {
    var turns := ListTurns(h);
    var keep := configured;
    if pressure && |turns| <= keep && |turns| > 8 {
      keep := if |turns| / 2 > 4 then |turns| / 2 else 4;
    }
    if |turns| <= keep { return None; }
    return Some(turns[|turns| - keep]);
  }

  /** The compacted state, or None when there is nothing to compact. */
  method CompactedCopy(s: Sessions.Session, configured: nat, pressure: bool, newSummary: Text, plugins: Tree)
    returns (draft: Option<Sessions.Session>)
    requires configured >= 1
    ensures draft.Some? <==> Sessions.Compacts(s, configured, pressure)
    ensures Sessions.Compact(s, configured, pressure, newSummary, plugins) == if draft.Some? then draft.value else s
  {
    var cutoff := ChooseCutoff(s.history, configured, pressure);
    if cutoff.None? { return None; }
    var evicted, kept := SplitAt(s.history, cutoff.value);
    var delta := BuildPluginDelta(s.world.pluginState, plugins);
    var checkpoint := Sessions.Checkpoint(
      s.written + 1, Sessions.TopId(s.stack), cutoff.value, s.history[|s.history| - 1].turn, evicted, s.summary,
      Sessions.HistoryDigest(kept), Sessions.SummaryDigest(newSummary), delta);
    return Some(Sessions.Session(kept, s.world.(pluginState := plugins), newSummary, s.stack + [checkpoint],
                                 s.written + 1, s.revision + 1));
  }

  /** The restored state, or None when a check of the checkpoint fails. */
  method RestoredCopy(s: Sessions.Session, resolver: Sessions.Resolver) returns (draft: Option<Sessions.Session>)
    ensures draft.Some? <==> Sessions.Restorable(s, resolver)
    ensures Sessions.Restore(s, resolver) == if draft.Some? then draft.value else s
  {
    if s.stack == [] { return None; }
    var c := s.stack[|s.stack| - 1];
    if !Sessions.ParentIntact(s.stack) { return None; }
    var prefix, later := SplitAt(s.history, c.maxTurn + 1);
    if Sessions.HistoryDigest(prefix) != c.afterHistory || Sessions.SummaryDigest(s.summary) != c.afterSummary { return None; }
    var plugins := RestorePlugins(s.world.pluginState, c.pluginDelta, resolver);
    if plugins.None? { return None; }
    return Some(Sessions.Session(c.evicted + prefix + later, s.world.(pluginState := plugins.value), c.beforeSummary,
                                 s.stack[..|s.stack| - 1], s.written, s.revision + 1));
  }

  /** Undo the delta, then let the resolvers settle what conflicts; None when one is missing or a
      pointer cannot be read. */
  method RestorePlugins(current: Tree, delta: seq<Operation>, resolver: Sessions.Resolver) returns (plugins: Option<Tree>)
    ensures plugins.Some? <==>
      AllValid(delta) && forall p | p in Grouped(Conflicts(current, Entries(delta))) :: !resolver(p).NoResolver?
    ensures plugins.Some? ==>
      plugins.value == Sessions.Resolved(Inverted(current, Edits(Entries(delta))),
                                         Grouped(Conflicts(current, Entries(delta))).Keys, resolver)
  {
    var inversion := InvertPluginDelta(current, delta);
    if inversion.Failure? { return None; }
    var unresolved, resolved := ResolveConflicts(inversion.value.merged, inversion.value.conflicts.Keys, resolver);
    if unresolved { return None; }
    return Some(resolved);
  }

  /** The deadline branch of `_maintain_roteiro`. */
  method ExpireAct(roteiro: Roteiro, beat: RoteiroBeat, reply: StoryClock.Reply, turn: int, tick: int, similar: StoryClock.Similar)
    returns (r: Roteiro)
    ensures r == StoryClock.Deadline(roteiro, beat, reply, turn, tick, similar)
  {
    r := roteiro;
    var actsBefore := |r.acts|;
    var terminal := r.actIndex + 1 >= actsBefore;
    if !terminal {
      r := r.(actIndex := r.actIndex + 1);
    }
    r := r.(actStartedTick := tick, beatReplansInAct := 0);
    var verdict := StoryClock.Verdict(if terminal then StoryClock.ReplanAct else StoryClock.ReplanBeat, StoryClock.ActDeadline);
    r := StoryClock.Replan(r, verdict, beat, reply, turn, tick, similar);
    if terminal {
      var grew := |r.acts| > actsBefore;
      r := r.(actIndex := if grew then actsBefore else |r.acts|, actStartedTick := tick);
    }
  }

  method ListTurns(h: Records) returns (turns: seq<int>)
    ensures turns == DistinctTurns(h)
  {
    turns := [];
    for i := 0 to |h|
      invariant turns == DistinctTurns(h[..i])
    {
      assert h[..i + 1] == h[..i] + [h[i]];
      DistinctSnoc(h[..i], h[i]);
      if h[i].turn !in turns {
        turns := turns + [h[i].turn];
      }
    }
    assert h[..|h|] == h;
  }

  method SplitAt(h: Records, cutoff: int) returns (older: Records, newer: Records)
    ensures older == Before(h, cutoff) && newer == From(h, cutoff)
  {
    older, newer := [], [];
    for i := 0 to |h|
      invariant older == Before(h[..i], cutoff) && newer == From(h[..i], cutoff)
    {
      assert h[..i + 1][..i] == h[..i];
      if h[i].turn < cutoff {
        older := older + [h[i]];
      } else {
        newer := newer + [h[i]];
      }
    }
    assert h[..|h|] == h;
  }

  /** The conflict loop of a restore: one resolver call per plugin. */
  method ResolveConflicts(merged: Tree, plugins: set<string>, resolver: Sessions.Resolver)
    returns (unresolved: bool, resolved: Tree)
    ensures unresolved <==> exists p :: p in plugins && resolver(p).NoResolver?
    ensures !unresolved ==> resolved == Sessions.Resolved(merged, plugins, resolver)
  {
    unresolved, resolved := false, merged;
    var rest := plugins;
    while rest != {}
      invariant rest <= plugins
      invariant unresolved <==> exists p :: p in plugins - rest && resolver(p).NoResolver?
      invariant !unresolved ==> resolved == Sessions.Resolved(merged, plugins - rest, resolver)
    {
      var p :| p in rest;
      match resolver(p) {
        case NoResolver => unresolved := true;
        case Dropped => resolved := resolved - {p};
        case Replaced(v) => resolved := resolved[p := v];
      }
      rest := rest - {p};
    }
    assert plugins - rest == plugins;
  }

  /** `measure_beat_progress`, with its counting loops. */
  method MeasureBeatProgress(r: Roteiro, h: Records, controlled: string, matched: StoryClock.Matcher)
    returns (p: StoryClock.Progress)
    requires r.beat.Some?
    ensures p == StoryClock.Measure(r, h, controlled, matched)
  {
    var beat := r.beat.value;
    var turns := StoryClock.Turns(h, r.beatStartedTurn);
    var engaged := StoryClock.EngagedTurns(h, r.beatStartedTurn, beat, controlled, matched);
    var streak := StoryClock.CountStreak(turns, engaged);
    p := StoryClock.Progress(
      StoryClock.AnchorsMissing(r, h, matched), StoryClock.AnchorsHit(r, h, matched),
      StoryClock.ActorsMissing(r, h, controlled), |turns|, streak, r.beatActionsElapsed);
  }
}
