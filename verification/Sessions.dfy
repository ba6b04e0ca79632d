/** What compaction, restore, undo and a committed beat do to a session, as functions on its state. */
module Sessions {
  import opened Wrappers
  import opened Json
  import opened Text
  import opened Model
  import opened History
  import opened PluginDelta

  /** The sha256 of a canonical rendering, as an injective function of what was hashed. */
  datatype Digest = HistoryDigest(records: Records) | SummaryDigest(summary: Text)

  /** A stack entry together with the checkpoint file it names. */
  datatype Checkpoint = Checkpoint(
    id: nat,
    parent: Option<nat>,
    cutoff: int,
    maxTurn: int,
    evicted: Records,
    beforeSummary: Text,
    afterHistory: Digest,
    afterSummary: Digest,
    pluginDelta: seq<Operation>)

  datatype Session = Session(
    history: Records,
    world: World,
    summary: Text,
    stack: seq<Checkpoint>,
    written: nat,  // checkpoint files so far; the next id is one more
    revision: nat)

  // ---- compaction ----------------------------------------------------------

  function TopId(stack: seq<Checkpoint>): Option<nat> {
    if stack == [] then None else Some(stack[|stack| - 1].id)
  }

  predicate Compacts(s: Session, configured: nat, pressure: bool) {
    |DistinctTurns(s.history)| > KeepRecent(configured, |DistinctTurns(s.history)|, pressure)
  }

  ghost function CheckpointOf(s: Session, cutoff: int, summary: Text, plugins: Tree): Checkpoint
    requires s.history != []
  {
    Checkpoint(s.written + 1, TopId(s.stack), cutoff, s.history[|s.history| - 1].turn, Before(s.history, cutoff),
               s.summary, HistoryDigest(From(s.history, cutoff)), SummaryDigest(summary),
               StoredDelta(s.world.pluginState, plugins))
  }

  /** `_compact_loaded_game`; `summary` and `plugins` are what the summarizer and the hook returned. */
  ghost function Compact(s: Session, configured: nat, pressure: bool, summary: Text, plugins: Tree): Session
    requires configured >= 1
  {
    if !Compacts(s, configured, pressure) then s
    else
      assert s.history != [];
      var cutoff := Cutoff(s.history, KeepRecent(configured, |DistinctTurns(s.history)|, pressure));
      Session(From(s.history, cutoff), s.world.(pluginState := plugins), summary,
              s.stack + [CheckpointOf(s, cutoff, summary, plugins)], s.written + 1, s.revision + 1)
  }

  // ---- restore -------------------------------------------------------------

  /** What a plugin's conflict resolver answers, if it has one. */
  datatype Resolution = NoResolver | Dropped | Replaced(value: Json)

  type Resolver = string -> Resolution

  predicate RecordedIntact(s: Session, c: Checkpoint) {
    HistoryDigest(Before(s.history, c.maxTurn + 1)) == c.afterHistory && SummaryDigest(s.summary) == c.afterSummary
  }

  predicate ParentIntact(stack: seq<Checkpoint>)
    requires stack != []
  {
    stack[|stack| - 1].parent == TopId(stack[..|stack| - 1])
  }

  /** Namespaces of resolved conflicts are replaced whole or dropped. */
  function Resolved(merged: Tree, plugins: set<string>, resolver: Resolver): Tree {
    map k | k in merged.Keys + plugins && (k in plugins ==> !resolver(k).Dropped?) ::
      if k in plugins && resolver(k).Replaced? then resolver(k).value
      else if k in merged then merged[k] else Null
  }

  ghost predicate Restorable(s: Session, resolver: Resolver) {
    && s.stack != []
    && var c := s.stack[|s.stack| - 1];
    && ParentIntact(s.stack)
    && RecordedIntact(s, c)
    && AllValid(c.pluginDelta)
    && forall p | p in Grouped(Conflicts(s.world.pluginState, Entries(c.pluginDelta))) :: !resolver(p).NoResolver?
  }

  /** `restore_last_compaction`. */
  ghost function Restore(s: Session, resolver: Resolver): Session {
    if !Restorable(s, resolver) then s
    else
      var c := s.stack[|s.stack| - 1];
      var entries := Entries(c.pluginDelta);
      var merged := Inverted(s.world.pluginState, Edits(entries));
      var plugins := Resolved(merged, Grouped(Conflicts(s.world.pluginState, entries)).Keys, resolver);
      Session(c.evicted + Before(s.history, c.maxTurn + 1) + From(s.history, c.maxTurn + 1),
              s.world.(pluginState := plugins), c.beforeSummary, s.stack[..|s.stack| - 1], s.written, s.revision + 1)
  }

  // ---- undo ----------------------------------------------------------------

  /** Where the last turn's records begin. */
  function TurnStart(h: Records, turn: int): nat
    ensures TurnStart(h, turn) <= |h|
  {
    if h == [] || h[|h| - 1].turn != turn then |h| else TurnStart(h[..|h| - 1], turn)
  }

  /** Moods are put back one present key at a time. */
  function PutBack(moods: map<string, string>, snapshot: map<string, string>): map<string, string> {
    map id | id in moods :: if id in snapshot then snapshot[id] else moods[id]
  }

  /** `undo_turn`. */
  function Undo(s: Session): Session {
    if s.history == [] then s
    else
      var h := s.history;
      var k := TurnStart(h[..|h| - 1], h[|h| - 1].turn);
      var snap := h[k].snapshot;
      s.(history := h[..k], world := snap.(moods := PutBack(s.world.moods, snap.moods)), revision := s.revision + 1)
  }

  // ---- one beat ------------------------------------------------------------

  datatype Line = Line(speaker: string, content: Text, kind: ContentType, audience: Option<seq<string>>, origin: Origin)

  /** What a beat does before it commits, in the order it does it. */
  datatype Stage =
    | Say(line: Line)
    | Replan(roteiro: Option<Roteiro>)
    | Reconcile(scene: Scene)
    | SkipTime(ticks: nat)
    | Learn(ledgers: map<string, Json>)

  function Onstage(w: World, stage: Stage): World {
    match stage
    case Say(_) => w
    case Replan(r) => w.(roteiro := r)
    case Reconcile(scene) => w.(scene := scene)
    case SkipTime(t) => w.(tick := w.tick + t)
    case Learn(l) => w.(ledgers := l)
  }

  /** A new record: the clock and screenplay of its snapshot are filled in at commit. */
  function Recorded(w: World, step: int, line: Line): TurnRecord {
    TurnRecord(step, line.speaker, line.content, line.kind, line.audience, line.origin, w.(tick := 0, roteiro := None))
  }

  function RunStage(s: Session, step: int, stage: Stage): Session {
    if stage.Say? then s.(history := s.history + [Recorded(s.world, step, stage.line)])
    else s.(world := Onstage(s.world, stage))
  }

  function RunStages(s: Session, step: int, stages: seq<Stage>): Session
    decreases |stages|
  {
    if stages == [] then s else RunStages(RunStage(s, step, stages[0]), step, stages[1..])
  }

  function Stamp(r: TurnRecord, tick: int, roteiro: Option<Roteiro>): TurnRecord {
    r.(snapshot := r.snapshot.(tick := tick, roteiro := roteiro))
  }

  /** `_stamp_undo_anchor`: the trailing records of `step` get the pre-beat clock and screenplay. */
  function Stamped(h: Records, step: int, tick: int, roteiro: Option<Roteiro>): Records {
    if h == [] || h[|h| - 1].turn != step then h
    else Stamped(h[..|h| - 1], step, tick, roteiro) + [Stamp(h[|h| - 1], tick, roteiro)]
  }

  /** A beat: the player's own lines (none on a skip), the stages, whether the scene or the clock was
      told to change, and the world the commit leaves. */
  datatype Beat = Beat(player: seq<Line>, stages: seq<Stage>, told: bool, after: World)

  function Says(lines: seq<Line>): seq<Stage> {
    seq(|lines|, i requires 0 <= i < |lines| => Say(lines[i]))
  }

  predicate Speaks(b: Beat) {
    b.player != [] || exists st | st in b.stages :: st.Say?
  }

  /** A committed beat, or the session as saved before when the beat left no trace. */
  function Commit(s: Session, b: Beat): Session {
    if !Speaks(b) && !b.told then s
    else
      var step := NextTurn(s.history);
      var played := RunStages(s, step, Says(b.player) + b.stages);
      played.(history := Stamped(played.history, step, s.world.tick, s.world.roteiro), world := b.after,
              revision := s.revision + 1)
  }
}
