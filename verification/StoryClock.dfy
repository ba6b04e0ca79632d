/** The roteiro: beat progress, the replan decision, a replan's state update, and one maintenance step. */
module StoryClock {
  import opened Wrappers
  import opened Text
  import opened Model
  import opened History
  import Ints

  const DRIFT_WINDOW_TURNS: nat := 3
  const PARTIAL_ADVANCE_PATIENCE: nat := 2
  const HARD_BEAT_ACTION_CAP: int := 3
  const HARD_BEAT_TURN_CAP: nat := 3
  const COOLDOWN_TURNS: int := 2
  const ACT_REPLAN_THRESHOLD: int := 2
  const MIN_BUDGET_TURNS: int := 2
  const MAX_BUDGET_TURNS: int := 10
  const MAX_ANCHORS: nat := 5
  const MAX_ACTS: nat := 5
  const MAX_DURATION: int := 12
  const MAX_LOG: nat := 20

  /** Whether a beat anchor is covered by a text: exact or fuzzy matching, any predicate here. */
  type Matcher = (string, Text) -> bool

  /** Whether two act summaries near-repeat each other. */
  type Similar = (string, string) -> bool

  // ---- progress ------------------------------------------------------------

  datatype Progress = Progress(
    anchorsMissing: seq<string>, anchorsHit: seq<string>, actorsMissing: seq<string>,
    turnsElapsed: nat, disengagedStreak: nat, actionsElapsed: int)

  predicate Counts(rec: TurnRecord, since: int) {
    rec.turn >= since && rec.kind != Thought
  }

  predicate Acts(rec: TurnRecord, actor: string, controlled: string) {
    SubjectOf(rec.speaker, controlled) == actor && (rec.kind == Speech || rec.kind == Action)
  }

  /** The turn numbers with a progress record of the beat. */
  function Turns(h: Records, since: int): set<int> {
    set i | 0 <= i < |h| && Counts(h[i], since) :: h[i].turn
  }

  predicate Engages(rec: TurnRecord, beat: RoteiroBeat, controlled: string, matched: Matcher) {
    || (exists a | a in beat.actors :: Acts(rec, a, controlled))
    || (exists a | a in beat.anchors :: matched(a, rec.content))
  }

  function EngagedTurns(h: Records, since: int, beat: RoteiroBeat, controlled: string, matched: Matcher): set<int> {
    set i | 0 <= i < |h| && Counts(h[i], since) && Engages(h[i], beat, controlled, matched) :: h[i].turn
  }

  predicate AnchorHit(r: Roteiro, h: Records, anchor: string, matched: Matcher) {
    anchor in r.anchorsSeen || exists i | 0 <= i < |h| :: Counts(h[i], r.beatStartedTurn) && matched(anchor, h[i].content)
  }

  predicate ActorHit(r: Roteiro, h: Records, actor: string, controlled: string) {
    exists i | 0 <= i < |h| :: Counts(h[i], r.beatStartedTurn) && Acts(h[i], actor, controlled)
  }

  function Where(xs: seq<string>, keep: string -> bool): seq<string> {
    if xs == [] then [] else (if keep(xs[0]) then [xs[0]] else []) + Where(xs[1..], keep)
  }

  /** The progress turns after the last engaged one. */
  function Trailing(turns: set<int>, engaged: set<int>): set<int> {
    set t | t in turns && forall e | e in engaged :: e < t
  }

  function AnchorsMissing(r: Roteiro, h: Records, matched: Matcher): seq<string>
    requires r.beat.Some?
  {
    Where(r.beat.value.anchors, a => !AnchorHit(r, h, a, matched))
  }

  function AnchorsHit(r: Roteiro, h: Records, matched: Matcher): seq<string>
    requires r.beat.Some?
  {
    Where(r.beat.value.anchors, a => AnchorHit(r, h, a, matched))
  }

  function ActorsMissing(r: Roteiro, h: Records, controlled: string): seq<string>
    requires r.beat.Some?
  {
    Where(r.beat.value.actors, a => !ActorHit(r, h, a, controlled))
  }

  function Measure(r: Roteiro, h: Records, controlled: string, matched: Matcher): Progress
    requires r.beat.Some?
  {
    var beat := r.beat.value;
    var turns := Turns(h, r.beatStartedTurn);
    Progress(
      AnchorsMissing(r, h, matched),
      AnchorsHit(r, h, matched),
      ActorsMissing(r, h, controlled),
      |turns|,
      |Trailing(turns, EngagedTurns(h, r.beatStartedTurn, beat, controlled, matched))|,
      r.beatActionsElapsed)
  }

  /** The streak as the source counts it: turns from the latest down, until an engaged one. */
  method CountStreak(turns: set<int>, engaged: set<int>) returns (streak: nat)
    requires engaged <= turns
    ensures streak == |Trailing(turns, engaged)|
  {
    streak := 0;
    var rest := turns;
    ghost var seen: set<int> := {};
    while rest != {}
      invariant rest + seen == turns && rest !! seen
      invariant forall t, u | t in rest && u in seen :: t < u
      invariant seen !! engaged
      invariant streak == |seen|
      decreases rest
    {
      var turn := Ints.Latest(rest);
      if turn in engaged {
        assert Trailing(turns, engaged) == seen;
        return;
      }
      rest, seen, streak := rest - {turn}, seen + {turn}, streak + 1;
    }
    assert Trailing(turns, engaged) == seen;
  }

  // ---- decision ------------------------------------------------------------

  datatype Decision = Stay | Advance | ReplanBeat | ReplanAct

  datatype Reason =
    NoBeat | CoverageComplete | CoverageSufficient | InProgress | Cooldown | Stalled | Drifted | ActDeadline

  datatype Verdict = Verdict(decision: Decision, reason: Reason)

  function Min(a: int, b: int): int { if a <= b then a else b }

  function Max(a: int, b: int): int { if a >= b then a else b }

  function Evaluate(r: Roteiro, h: Records, controlled: string, nextTurn: int, matched: Matcher): Verdict {
    if r.beat.None? then Verdict(ReplanBeat, NoBeat)
    else
      var beat, p := r.beat.value, Measure(r, h, controlled, matched);
      var covered := p.anchorsMissing == [] && p.actorsMissing == [];
      if covered && (beat.anchors != [] || beat.actors != []) then Verdict(Advance, CoverageComplete)
      else if p.actorsMissing == [] && |p.anchorsHit| >= 1 && |p.anchorsMissing| <= 1
              && p.turnsElapsed >= PARTIAL_ADVANCE_PATIENCE then Verdict(Advance, CoverageSufficient)
      else
        var stalled := p.actionsElapsed >= Min(beat.budgetTurns, HARD_BEAT_ACTION_CAP) || p.turnsElapsed >= HARD_BEAT_TURN_CAP;
        var drifted := p.turnsElapsed >= DRIFT_WINDOW_TURNS && p.disengagedStreak >= DRIFT_WINDOW_TURNS;
        if !stalled && !drifted then Verdict(Stay, InProgress)
        else if nextTurn < r.cooldownUntilTurn then Verdict(Stay, Cooldown)
        else
          Verdict(if r.beatReplansInAct >= ACT_REPLAN_THRESHOLD then ReplanAct else ReplanBeat,
                  if drifted then Drifted else Stalled)
  }

  // ---- replan --------------------------------------------------------------

  /** A generated beat; an empty intent makes the whole reply invalid. */
  datatype RawBeat = RawBeat(beatId: string, intent: string, actors: seq<string>, anchors: seq<string>,
                             exitCondition: string, budget: Option<int>)

  datatype RawAct = RawAct(actId: string, summary: string, exitCondition: string, duration: Option<int>, worldEvent: string)

  /** What the planner returned. A failed call or an invalid beat raises, and the turn is not saved. */
  datatype Reply = Reply(beat: Option<RawBeat>, actCompleted: bool, acts: seq<RawAct>, premise: string)

  function Clamped(lo: int, hi: int, x: int): int { Max(lo, Min(hi, x)) }

  function Distinct(xs: seq<string>): seq<string> {
    if xs == [] then []
    else
      var d := Distinct(xs[..|xs| - 1]);
      if xs[|xs| - 1] in d then d else d + [xs[|xs| - 1]]
  }

  /** `_validate_beat`: present cast without the controlled character, at most five anchors, a sane budget. */
  function ValidateBeat(raw: Option<RawBeat>, cast: Cast, controlled: string): Option<RoteiroBeat> {
    if raw.None? || raw.value.intent == "" then None
    else
      var b := raw.value;
      var anchors := Where(Distinct(b.anchors), a => a != "");
      Some(RoteiroBeat(b.beatId, b.intent, Where(Distinct(b.actors), a => a in cast && a != controlled),
                       if |anchors| > MAX_ANCHORS then anchors[..MAX_ANCHORS] else anchors, b.exitCondition,
                       Clamped(MIN_BUDGET_TURNS, MAX_BUDGET_TURNS, if b.budget.Some? then b.budget.value else 6)))
  }

  function ValidateActs(raw: seq<RawAct>): seq<RoteiroAct> {
    if raw == [] then []
    else
      var a := raw[0];
      (if a.summary == "" then []
       else [RoteiroAct(a.actId, a.summary, a.exitCondition,
                        Clamped(0, MAX_DURATION, if a.duration.Some? then a.duration.value else 0), a.worldEvent)])
      + ValidateActs(raw[1..])
  }

  function FirstFive(raw: seq<RawAct>): seq<RawAct> {
    if |raw| > MAX_ACTS then raw[..MAX_ACTS] else raw
  }

  /** Rewrite acts that near-repeat a kept one are dropped. */
  function Fresh(acts: seq<RoteiroAct>, kept: seq<RoteiroAct>, similar: Similar): seq<RoteiroAct> {
    if acts == [] then []
    else
      (if exists k | k in kept :: similar(acts[0].summary, k.summary) then [] else [acts[0]]) + Fresh(acts[1..], kept, similar)
  }

  function OutcomeText(v: Verdict): string {
    if v.decision.Advance? then "completed"
    else
      match v.reason
      case NoBeat => "no_beat"
      case CoverageComplete => "coverage_complete"
      case CoverageSufficient => "coverage_sufficient"
      case InProgress => "in_progress"
      case Cooldown => "cooldown"
      case Stalled => "stalled"
      case Drifted => "drifted"
      case ActDeadline => "act_deadline"
  }

  /** The last twenty outcomes. */
  function Logged(log: seq<string>, entry: string): seq<string> {
    var more := log + [entry];
    if |more| > MAX_LOG then more[|more| - MAX_LOG..] else more
  }

  /** `replan_roteiro` for a valid reply. */
  function Replan(r: Roteiro, v: Verdict, beat: RoteiroBeat, reply: Reply, turn: int, tick: int, similar: Similar): (n: Roteiro)
    ensures n.actIndex >= r.actIndex
  {
    var offered := ValidateActs(FirstFive(reply.acts));
    var kept := if r.actIndex + 1 <= |r.acts| then r.acts[..r.actIndex + 1] else r.acts;
    var acts := if v.decision.ReplanAct? && offered != [] then kept + Fresh(offered, kept, similar) else r.acts;
    var advances := reply.actCompleted && r.actIndex < |acts| - 1 && v.reason != ActDeadline;
    var index := if advances then r.actIndex + 1 else r.actIndex;
    var base := if v.decision.ReplanAct? || advances then 0 else r.beatReplansInAct;
    Roteiro(
      r.premise, acts, index, Some(beat), turn,
      if advances then tick else r.actStartedTick,
      [], 0, turn + COOLDOWN_TURNS,
      base + if v.decision.ReplanBeat? && (v.reason == Stalled || v.reason == Drifted) then 1 else 0,
      Logged(r.beatLog, (if r.beat.Some? then r.beat.value.beatId else "none") + ": " + OutcomeText(v)))
  }

  // ---- one maintenance step ------------------------------------------------

  /** What happened: the act whose world event was staged, a stall/drift beat replan, an act-scope replan
      (whatever it returned) or change of act. */
  datatype Event = Event(staged: Option<nat>, stall: bool, reset: bool)

  datatype Maintained = Raised | Maintained(roteiro: Option<Roteiro>, event: Event)

  predicate DeadlineDue(r: Roteiro, tick: int) {
    r.actIndex < |r.acts| && r.acts[r.actIndex].durationTicks > 0
    && tick - r.actStartedTick >= r.acts[r.actIndex].durationTicks
  }

  function Compile(beat: RoteiroBeat, reply: Reply, turn: int, tick: int): Roteiro {
    Roteiro(reply.premise, ValidateActs(FirstFive(reply.acts)), 0, Some(beat), turn, tick, [], 0, 0, 0, [])
  }

  /** The deadline branch: the act advances by code; the last act gets new acts or stops the clock. */
  function Deadline(r: Roteiro, beat: RoteiroBeat, reply: Reply, turn: int, tick: int, similar: Similar): Roteiro {
    var terminal := r.actIndex + 1 >= |r.acts|;
    var r1 := r.(actIndex := if terminal then r.actIndex else r.actIndex + 1, actStartedTick := tick, beatReplansInAct := 0);
    var r2 := Replan(r1, Verdict(if terminal then ReplanAct else ReplanBeat, ActDeadline), beat, reply, turn, tick, similar);
    if terminal then
      r2.(actIndex := if |r2.acts| > |r.acts| then |r.acts| else |r2.acts|, actStartedTick := tick)
    else r2
  }

  /** A maintenance step on an existing roteiro, given the verdict on its beat. */
  function MaintainBeat(r: Roteiro, v: Verdict, beat: Option<RoteiroBeat>, reply: Reply, turn: int, tick: int, similar: Similar): Maintained {
    if DeadlineDue(r, tick) then
      if beat.None? then Raised
      else Maintained(Some(Deadline(r, beat.value, reply, turn, tick, similar)), Event(Some(r.actIndex), false, true))
    else if v.decision.Stay? then Maintained(Some(r), Event(None, false, false))
    else if beat.None? then Raised
    else
      var n := Replan(r, v, beat.value, reply, turn, tick, similar);
      Maintained(Some(n), Event(None, v.decision.ReplanBeat? && v.reason in {Stalled, Drifted},
                                v.decision.ReplanAct? || n.actIndex != r.actIndex))
  }

  /** The roteiro with this player action counted. */
  function Counted(r: Roteiro, first: bool): Roteiro {
    if first then r.(beatActionsElapsed := r.beatActionsElapsed + 1) else r
  }

  /** `_maintain_roteiro` with the feature on. `h` already holds the player's own records of `turn`. */
  function Maintain(r: Option<Roteiro>, h: Records, tick: int, turn: int, first: bool, reply: Reply,
                    cast: Cast, controlled: string, matched: Matcher, similar: Similar): Maintained
  {
    var beat := ValidateBeat(reply.beat, cast, controlled);
    if r.None? then
      if reply.premise == "" || ValidateActs(FirstFive(reply.acts)) == [] || beat.None? then Raised
      else Maintained(Some(Compile(beat.value, reply, turn, tick)), Event(None, false, true))
    else
      var counted := Counted(r.value, first);
      MaintainBeat(counted, Evaluate(counted, h, controlled, NextTurn(h), matched), beat, reply, turn, tick, similar)
  }
}
