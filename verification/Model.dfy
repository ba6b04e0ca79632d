/** The persisted entities the other modules share. */
module Model {
  import opened Wrappers
  import opened Json
  import opened Text

  /** One physical fact; the scene keeps them in insertion order, as a Python dict does. */
  datatype Fact = Fact(key: Text, value: Text)

  datatype Scene = Scene(
    location: Text,
    timeOfDay: Text,
    present: seq<string>,
    facts: seq<Fact>,
    zones: map<string, seq<string>>,  // zone -> the other zones audible from it
    positions: map<string, string>)

  /** What the guards read of a character: its name, and its id as text. */
  datatype Character = Character(name: Text, idText: Text)

  type Cast = map<string, Character>

  datatype ContentType = Speech | Thought | Action | Narration

  datatype Origin = Whisper | Zone

  datatype RoteiroBeat = RoteiroBeat(
    beatId: string, intent: string, actors: seq<string>, anchors: seq<string>,
    exitCondition: string, budgetTurns: int)

  datatype RoteiroAct = RoteiroAct(
    actId: string, summary: string, exitCondition: string, durationTicks: int, worldEvent: string)

  datatype Roteiro = Roteiro(
    premise: string,
    acts: seq<RoteiroAct>,
    actIndex: nat,
    beat: Option<RoteiroBeat>,
    beatStartedTurn: int,
    actStartedTick: int,
    anchorsSeen: seq<string>,
    beatActionsElapsed: int,
    cooldownUntilTurn: int,
    beatReplansInAct: int,
    beatLog: seq<string>)

  /** Everything a turn can change and an undo puts back. Ledgers and dispositions are held in their
      serialized form. */
  datatype World = World(
    scene: Scene,
    moods: map<string, string>,
    pluginState: map<string, Json>,
    ledgers: map<string, Json>,
    dispositions: map<string, Json>,
    tick: int,
    roteiro: Option<Roteiro>)

  datatype TurnRecord = TurnRecord(
    turn: int,
    speaker: string,
    content: Text,
    kind: ContentType,
    audience: Option<seq<string>>,
    origin: Origin,
    snapshot: World)

  const PLAYER := "Player"
  const NARRATOR := "Narrator"

  /** `record_visible_to`. */
  predicate VisibleTo(rec: TurnRecord, id: string) {
    rec.audience.None? || id in rec.audience.value || rec.speaker == id
  }

  /** The character a speaker label stands for. */
  function SubjectOf(speaker: string, controlled: string): string {
    if speaker == PLAYER then controlled else speaker
  }
}
