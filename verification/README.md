# Alex Tavern: a verified model of the session kernel

Alex Tavern runs a multi-character roleplay. Language models propose; deterministic code clamps each
proposal, folds it into a saved session, and must be able to take it back. Every model reply, plugin
hook, similarity score and regular expression is an arbitrary input here, so each theorem holds for all
of them.

The project models five parts of that kernel and proves what they guarantee.

1. **Reversible session state.** `Pointer`, `PluginDelta` and `PluginUndo` hold the recursive diff of
   plugin state, its JSON Pointer codec and the conflict-aware inverse. `History`, `Sessions`,
   `UndoTheorems`, `CompactionTheorems` and `QuietTheorems` hold turn records with snapshots, undo, the
   stack of hash-guarded checkpoints, and whole runs of beats, undos, compactions and restores;
   `RestoreTheorems` what a restore leaves where later plugin writes are in the way.
2. **The story clock.** `StoryClock` and `StoryTheorems` hold beat progress, the replan decision, act
   deadlines and escalation; `StoryBeats` the verdict on a beat in terms of the records, and that the
   generated beat is installed when one ends; `StoryUndo` the same along runs with undos and compactions, `StoryHeard` the
   turns a beat was heard on against those it counts, `StoryBounds` how many those can be,
   `StorySessions` the clock inside a session;
   `Watcher` holds the recovery ladder and its counters.
3. **Perception and secrecy.** `Perception` and `Canon` hold the directed zone graph, record audiences,
   typed events and the reconciliation of a beat; `Text`, `SceneFacts` and `Confidentiality` hold
   secret words, redaction and scene facts; `WhisperTheorems` reads the secret words off the records, and
   `VoicedLines` holds the lines the Director voices and whom they tell a secret.
4. **The JSON Schema subset.** `JsonSchema` holds both passes of the validator and the declarative
   meaning they decide.
5. **Bounded arithmetic and selection.** `Dispositions` holds trust and warmth, `Burst` the autonomous
   burst and its speakers, `History` the token-budget trim.

`Runner` holds the imperative form: a class `Game` whose methods update the loaded game field by field,
each proved equal to the specification function the theorems are about. `Model`, `Json`, `Text`,
`Ordering`, `Ints` and `Wrappers` are shared vocabulary.

A hash is a datatype constructor around what was hashed (injective). A text is a sequence of words and
other characters; a word carries its case-folded form and the features the guards read, so any folding
is covered. Real numbers stand for floats.

An automatic compaction inside a player turn happens before anything of the turn is recorded and keeps
the newest turn, so in a run it is a compaction step followed by a beat.

## What turned out false, and exactly when it holds

- Inverting a plugin delta gives back the original tree only up to Python equality: a plugin that turns
  `1` into `True` leaves no operation behind. It is exact if and only if no place holds two different
  values that compare equal (`PluginUndo.DeltaRoundTrip`, `PluginUndo.PunIsNotUndone`).
- An inverse without conflicts can still destroy later data, in two ways and no third: a removed key is
  put back by rebuilding its parents over a plain value written there since, and a value written since
  passes for the recorded one because Python calls them equal (`PluginUndo.LaterWritesKeptUnless`,
  `PluginUndo.BuriedValueIsLost`).
- An undone skip does not restore the scene: its first record is taken after canon. Scene and ledgers
  come back if and only if nothing changed them before the beat's first record; with a player's own line
  they always do (`UndoTheorems.UndoIsComplete`, `UndoTheorems.SkipUndoKeepsCanon`).
- An undo that reaches into the retained window makes the next restore fail, whatever the resolvers. No other
  step does: short of that undo, a restore fails only where a conflicting plugin has no resolver
  (`CompactionTheorems.UndoIntoWindowBlocks`, `CompactionTheorems.RestoreIsExact`). Undoing the whole window
  makes the turn count start at 1 again (`CompactionTheorems.EmptyWindowRestartsCount`).
- An undo can write plugin state although no beat did: a turn played after a compaction and undone after its
  restore brings back what the compaction's hook had written. With quiet beats an undo is quiet if and only if
  the hooks of the checkpoints restored since its turn was played had no effect taken together
  (`QuietTheorems.UndosQuietIff`, `QuietTheorems.LateUndoBringsHookBack`, `QuietTheorems.GentleIsQuiet`).
- A beat ends after three counted turns, but it can be heard on more, in two ways. After an undo that empties a
  compacted history the numbers restart below the beat's start: nothing is counted, and the cooldown keeps the
  beat whatever its actions (`StoryHeard.PlayCountedExactly`, `StoryHeard.NumbersGoOn`,
  `StoryHeard.RestartedCountHidesTurns`, `StoryUndo.UncountedBeatStays`). And compactions between player
  actions can evict counted turns; then the action clock bounds what the turn clock cannot see. Without undos
  a beat is heard on seven turns at most, for windows of any size; on five if every compaction retains two
  heard turns; on three if it retains three. Windows of one and two turns reach seven and five
  (`StoryBounds.HeardIsBounded`, `StoryBounds.HeardCapIsReached`, `StorySessions.SessionsHearBounded`).
- A third stall escalates, but an escalation need not change anything: an act-scope replan that comes back
  without a usable new act resets the counter all the same. Acts or index change between three stalls if
  and only if not every escalation there was idle in this sense (`StoryTheorems.EscalationIsReal`).
- An act's world event can be staged before the act has had its ticks, but only if the act was appended to
  a clock that had stopped (`StoryTheorems.StagedOnTime`, `StoryTheorems.EntryStartsClock`).
- Redaction covers fact values but not fact keys: a whispered or thought word is laundered if and only if the
  update settles a key containing it, one that is admitted, not removed again, and never has forty newer keys
  behind it. And it covers only secrets hidden from present characters
  (`Confidentiality.LaunderedBySettledKey`, `Confidentiality.ThoughtLaunderedBySettledKey`,
  `Confidentiality.SafeExactlyWhenGuarded`).
- A line the Director voices is checked for those who hear it, but not for the character it is given to, nor,
  when everybody present hears it, for the absent, who will know it all the same. A word hidden from a viewer
  stays hidden through all voiced lines of a beat if and only if no line that contains it tells it in one of
  these two ways (`VoicedLines.VoicedLinesTell`, `VoicedLines.VoicedLinesGuardThePresent`,
  `VoicedLines.AbsentAreNotAsked`).
- A mover into a new zone and those left behind hear each other, except that a link update naming the
  zone they came from drops its new edge (`Canon.NewZoneIsOpen`).
- A null bound beside its partner raises a TypeError in the schema's definition pass, while null means
  "absent" everywhere else; nothing else makes the pass raise anything but its own error
  (`JsonSchema.DefinitionCrashes`, `JsonSchema.NullBoundRaises`).
- Enum and const compare as Python does, so `1` accepts `true`. They agree with JSON's equality exactly where
  no boolean meets a number (`JsonSchema.EnumAgainstJson`, `Json.ComparisonIsStrict`).

## Where the code and its own comments differ

The model follows the code.

- `undo_turn` says any record of a step restores the full pre-step state (src/runner.py:1555-1560); a
  skip's records are snapshots taken after canon (src/runner.py:740-748).
- The clock is said never to regress on undo (src/models.py:398-400); undo restores it
  (src/runner.py:1597).
- An explicit seal of a new zone is said to win (src/runner.py:1228-1230); link updates are filtered
  against the zones that existed before the beat (src/agents/narrator.py:768-775), so none can name it.
- Eviction is said to drop the least recently written fact (src/runner.py:229-233); rewriting a dict key
  does not move it, so the order is that of first insertion.

- A single turn is said to nudge a disposition rather than snap it, so that flipping a band takes a couple of
  strong turns (src/disposition.py:162-164); the first strong shift of a new pair flips its band, and one calm
  turn flips it back.
- A voiced event that would hand a whisper secret to a non-confidant is said to be skipped
  (src/runner.py:1416-1421); the absent are not asked about.

## Model

| member | source | states |
|---|---|---|
| `Json.PyEqReflexive` | src/compaction.py:102 | Python's `==` on JSON trees, where True, 1 and 1.0 are one value, holds of every tree and itself |
| `Json.PyEqSymmetric` | src/compaction.py:161 | the comparison of a delta's after-value with the current value does not depend on the side |
| `Json.PyEqTransitive` | src/compaction.py:161 | Python's equality of JSON trees is transitive, so it is an equivalence |
| `Json.JsonEqExact` | src/llm/schema.py:136-138 | two trees Python calls equal are equal as JSON exactly when nowhere a boolean meets a number |
| `Json.ComparisonIsStrict` | src/llm/schema.py:138 | comparing with a fixed tree means the same to Python and to JSON for all values if and only if the tree holds no boolean, zero or one |
| `Ordering.SortedIsSorted` | src/compaction.py:77 | a sorted key list holds exactly the keys, each once, in code-point order |
| `Ordering.LeExact` | src/compaction.py:77 | code-point order: a string comes first exactly when it begins the other or has the smaller character where they first differ |
| `Ordering.SortSet` | src/compaction.py:77 | taking least elements one at a time builds that list |
| `Pointer.Parse` | src/compaction.py:120-123 | a pointer is read if and only if it begins with a slash; otherwise it is an error; at least one part comes out |
| `Pointer.TokenRoundTrip` | src/compaction.py:66-67 | unescaping undoes escaping on every key, whatever it contains |
| `Pointer.TokenDecodesBack` | src/compaction.py:123 | escaping undoes unescaping exactly on the reference tokens of RFC 6901 section 3 |
| `Pointer.SplitJoin` | src/compaction.py:105 | splitting a joined path gives the parts back when none contains a slash |
| `Pointer.JoinSplit` | src/compaction.py:123 | joining what a split produced gives the text back |
| `Pointer.RenderParse` | src/compaction.py:105 | every non-empty path of keys survives being written as a pointer and read again, also keys with a tilde, a slash or nothing in them |
| `Pointer.ParseRender` | src/compaction.py:120-123 | reading and rewriting a pointer changes nothing if and only if RFC 6901 allows the pointer |
| `PluginDelta.CollectDelta` | src/compaction.py:70-111 | the recursion appends to the shared list exactly the edits that separate the two subtrees, each under its path, in key order |
| `PluginDelta.CollectKey` | src/compaction.py:78-100 | the added, removed and recursive cases of one key |
| `PluginDelta.BuildPluginDelta` | src/compaction.py:114-117 | the stored delta of two plugin states |
| `PluginDelta.DeltaSeparate` | src/compaction.py:76-111 | no emitted path is empty at the root or a prefix of another, and every operation has a before- or an after-value |
| `PluginDelta.LookupLoop` | src/compaction.py:126-132 | walking down the dicts finds the value at a path, or nothing when a step is missing or not a dict |
| `PluginDelta.LookupAssigned` | src/compaction.py:135-148 | after an assignment the path holds the assigned value, or nothing for a removal, whatever stood in its way |
| `PluginDelta.LookupElsewhere` | src/compaction.py:135-148 | an assignment changes nothing at incomparable paths |
| `PluginDelta.AssignsCommute` | src/compaction.py:135-148 | assignments at incomparable paths commute |
| `PluginDelta.StillHolds` | src/compaction.py:160-161 | an operation is intact when presence and value at its path are the recorded ones, by Python equality |
| `PluginDelta.InvertPluginDelta` | src/compaction.py:151-171 | succeeds exactly when every pointer can be read; then the merged tree undoes the fulfilled operations last first, and the conflicts are the other operations, grouped by plugin in the order met |
| `PluginDelta.GroupedExact` | src/compaction.py:160-164 | a plugin is listed with exactly the pointers of its own conflicting operations |
| `PluginUndo.StoredEdits` | src/compaction.py:114-123 | reading a stored delta back gives the very edits it was written from |
| `PluginUndo.DeltaRoundTrip` | src/compaction.py:66-171 | for all trees, inverting their delta on the later one meets no conflict and gives a tree Python calls equal to the earlier one; it is that tree if and only if no place holds two different but equal values |
| `PluginUndo.PunIsNotUndone` | src/compaction.py:102 | a change from 1 to True records nothing and is not undone |
| `PluginUndo.UndoAfterLaterWrites` | src/compaction.py:126-171 | after arbitrary later writes: conflicts are exactly the operations whose after-value is gone, every other path gets its before-value, a conflicting path keeps what it holds, and paths incomparable to all operations are untouched |
| `PluginUndo.ConflictsAreStale` | src/compaction.py:157-164 | for separate paths the conflicts can be read off the tree before anything is undone, in reverse order of the operations |
| `PluginUndo.FulfilledIsRestored` | src/compaction.py:165-170 | one fulfilled operation restores its before-value, whatever else is undone |
| `PluginUndo.OutOfReach` | src/compaction.py:157-170 | a path no fulfilled operation reaches keeps its value |
| `PluginUndo.OrderIrrelevant` | src/compaction.py:157 | any processing order of the same operations gives the same tree |
| `PluginUndo.LaterWritesKeptUnless` | src/compaction.py:126-171 | every plain value written after the delta was recorded survives the undo, wherever it stands, if and only if no removed key lies below one and no fulfilled operation's value differs from the recorded one it equals for Python |
| `PluginUndo.AncestorsKeptUnlessBuried` | src/compaction.py:139-144 | plain values standing where operations have parents survive if and only if no removed key lies below one of them |
| `PluginUndo.InvertedCongruent` | src/compaction.py:157-171 | on states Python calls equal, undoing the same operations skips the same ones and leaves such states |
| `PluginUndo.DeltaRoundTripUpToEquality` | src/compaction.py:126-171 | the delta inverts without conflict, up to Python equality, on every state Python calls equal to the later one |
| `PluginUndo.BuriedValueIsLost` | src/compaction.py:139-144 | a concrete undo without conflicts that overwrites a later value |
| `History.DistinctTurnsExact` | src/runner.py:1728 | the list of turn numbers holds each turn of the history once |
| `History.Split` | src/runner.py:1771-1772 | on a chronological history the evicted and kept records concatenate to the history |
| `History.WindowSplit` | src/runner.py:1770-1772 | the evicted part is not empty and the kept part has exactly the last retained number of turns |
| `History.TrimHistory` | src/models.py:418-440 | nothing without a budget; otherwise the longest suffix within the budget, or the newest record alone when it does not fit |
| `Runner.ListTurns` | src/runner.py:1728 | the loop form of the turn list |
| `Runner.SplitAt` | src/runner.py:1938-1941 | one pass splits a history at a turn number |
| `Runner.ChooseCutoff` | src/runner.py:1727-1770 | the first retained turn under the configured or pressure-shrunk window, and none exactly when the window holds everything |
| `Runner.CompactedCopy` | src/runner.py:1817-1853 | the draft a compaction saves, with its checkpoint, or none exactly when nothing is to be evicted |
| `Runner.Game.CompactLoadedGame` | src/runner.py:1726-1863 | the loaded game becomes the compacted state, or stays as it is |
| `Runner.ResolveConflicts` | src/runner.py:1950-1971 | one resolver per conflicting plugin: unresolved exactly when one is missing, else each namespace replaced or dropped |
| `Runner.RestorePlugins` | src/runner.py:1947-1971 | plugin state after a restore, and none exactly when a pointer is unreadable or a resolver missing |
| `Runner.RestoredCopy` | src/runner.py:1922-1990 | the draft a restore saves, and none exactly when a check fails |
| `Runner.Game.RestoreLastCompaction` | src/runner.py:1905-1991 | the loaded game becomes the restored state exactly when all checks pass, and is untouched otherwise |
| `Runner.Game.AdoptState` | src/runner.py:301-311 | every modelled field of the draft is taken over |
| `CompactionTheorems.CompactionSplits` | src/runner.py:1727-1772 | a compaction takes place if and only if there are more turns than configured, or more than eight under pressure; it cuts a chronological history into a non-empty evicted prefix and a suffix of exactly the configured number of latest turns, or the latest half where only pressure made it happen; the floor of four never acts |
| `CompactionTheorems.HistoryIsConserved` | src/runner.py:1770-1863 | in every run of beats, undos, compactions and restores from an uncompacted session, the evicted slices, oldest first, followed by live history are the logical history, and the parent check never fails |
| `CompactionTheorems.CheckpointsAreFresh` | src/runner.py:1697 | in every run no two checkpoints of the stack share an id, and the next compaction takes one above all of them |
| `CompactionTheorems.RestoreIsExact` | src/runner.py:1922-1991 | a restore succeeds if and only if window and summary are untouched and every conflicting plugin has a resolver; then the evicted records and the old summary are back with all later turns in order |
| `CompactionTheorems.RestoreGivesPluginsBack` | src/runner.py:1947-1988 | with no plugin write since, no resolver is needed and the old plugin state is back, exactly up to values Python cannot tell apart |
| `RestoreTheorems.AskedIsDisplaced` | src/runner.py:1947-1957 | the plugins whose resolvers are asked are exactly those with a recorded change no longer in place: after-value gone, another, or back |
| `RestoreTheorems.RestorableIffAnswered` | src/runner.py:1922-1983 | a restore goes through if and only if parent, window and summary are untouched and every such plugin has a resolver |
| `RestoreTheorems.ResolverDecides` | src/runner.py:1958-1971 | whatever the namespace holds, a disputed plugin ends up with exactly its resolver's answer, or without a namespace when the answer is nothing |
| `RestoreTheorems.OthersAreUndone` | src/runner.py:1947-1949 | in the namespace of an undisputed plugin every recorded place has its value from before the compaction, and every place apart from the recorded ones keeps what was written since |
| `RestoreTheorems.RestoreLeavesTheScene` | src/runner.py:1985-1991 | scene, moods, clock, screenplay, ledgers and dispositions are not touched by a restore |
| `CompactionTheorems.StepReady` | src/runner.py:1937-1945 | each beat, compaction, restore, and undo above the newest checkpoint keeps every later hash check of the stack satisfiable |
| `CompactionTheorems.UnwindAll` | src/runner.py:1922-1991 | from such a state restoring repeatedly never fails and ends uncompacted with the whole history and the first summary |
| `CompactionTheorems.UnwindingIsComplete` | src/runner.py:1922-1991 | any run whose undos stay above the newest checkpoint of their moment unwinds to the full logical history, the original summary and an empty stack |
| `CompactionTheorems.QuietUnwindingIsComplete` | src/runner.py:1947-1991 | when no plugin wrote outside compaction, the unwinding needs no resolver and also ends in a plugin state Python calls equal to the original, across any number of stacked checkpoints |
| `QuietTheorems.BeatHolds` | src/runner.py:2664-2681 | every record of a beat, whatever its stages, holds the plugin state the beat began with |
| `QuietTheorems.GentleIsQuiet` | src/runner.py:1579-1602 | over every run whose beats write no plugin state, whose undos stay above the newest checkpoint and whose restores leave no later turn behind, no undo writes plugin state either |
| `QuietTheorems.GentleUnwindingIsComplete` | src/runner.py:1947-1991 | such a run unwinds without any resolver to the logical history, the first summary and a plugin state Python calls equal to the first |
| `QuietTheorems.LateUndoBringsHookBack` | src/runner.py:1592-1602 | compaction, one beat, restore, undo: history and stack are the old ones, the plugin state is what the hook had written, and the run is quiet if and only if the hook was |
| `QuietTheorems.UndosQuietIff` | src/runner.py:1579-1602 | over every run whose beats write no plugin state, wherever undos reach and whatever restores leave behind, all undos are quiet if and only if each goes back to a turn played when the newest checkpoint's hook had left what it leaves now |
| `CompactionTheorems.UndoIntoWindowBlocks` | src/runner.py:1942-1943 | the stack stays unwindable after an undo if and only if the undone turn is above the newest checkpoint; otherwise the next restore fails for every resolver |
| `CompactionTheorems.EmptyWindowRestartsCount` | src/runner.py:296-298 | with the window undone away nothing more can be undone and the next beat is turn 1 |
| `Runner.Game.constructor` | src/models.py:370-415 | a new game starts empty, with the watcher's anchor at -999 |
| `Runner.Game.StampUndoAnchor` | src/runner.py:274-288 | exactly the trailing records of the step get the pre-beat clock and screenplay |
| `Runner.StampTrailing` | src/runner.py:284-288 | the backward loop over the trailing records |
| `Runner.Game.PlayStage` | src/runner.py:740-748 | one stage of a beat either records a line against the state of that moment or replaces one field, and touches nothing else |
| `Runner.Game.PlayStages` | src/runner.py:697-748 | the stages of a beat take effect in their order |
| `Runner.Game.PlayBeat` | src/runner.py:692-773 | a beat with a record, a scene change or a time skip is committed with its anchors; any other leaves the saved session as it was |
| `Runner.TraceMeansSpoken` | src/runner.py:762-768 | a record with the step's number exists if and only if somebody spoke in the beat |
| `Runner.PopTurn` | src/runner.py:1579-1584 | the pop loop removes the last turn and ends on that turn's first record |
| `Runner.RestoreMoods` | src/runner.py:1588-1590 | moods of characters still there are put back, nobody is added |
| `Runner.Game.UndoTurn` | src/runner.py:1573-1609 | undo drops the last turn and reinstates its first snapshot; the watcher's counters stay |
| `UndoTheorems.CommitAppends` | src/runner.py:690-773 | a committed beat appends records under one new turn number, the first holding the world before the beat except for scene and ledgers |
| `UndoTheorems.RecordsAreTheLines` | src/runner.py:2664-2681 | a beat adds one record for every line said, in order, with its speaker, text, kind, audience and origin, and the clock, screenplay, moods, plugin state and dispositions of before the beat in its snapshot |
| `UndoTheorems.PlayedExact` | src/runner.py:697-748 | stages leave the scene, screenplay and ledgers the latest of each kind set, the clock by all skips on, and everything else as it was |
| `UndoTheorems.SnapshotsFollowTheStages` | src/runner.py:2664-2681 | each line's record holds the scene and ledgers the stages before that line left |
| `UndoTheorems.UndoBlock` | src/runner.py:1579-1602 | undo removes exactly one block of equal turn numbers and reinstates the first record of it; moods are put back for characters still there, and those the record does not know keep theirs |
| `UndoTheorems.UndoOneBeat` | src/runner.py:1577-1602 | undoing a recorded beat gives back history, summary, stack, clock, screenplay, moods, plugin state and dispositions, and the scene and ledgers as its first record found them |
| `UndoTheorems.UndoIsComplete` | src/runner.py:1010-1031 | scene and ledgers are back too if and only if nothing changed them before the first record, always when the player led |
| `UndoTheorems.CodeOrderHearsCanon` | src/runner.py:740-748 | without player lines the first record finds the scene canon left |
| `UndoTheorems.SkipUndoKeepsCanon` | src/runner.py:740-748 | undoing a skip leaves the scene that canon produced |
| `UndoTheorems.UndoManyBeats` | src/runner.py:1552-1610 | k undos after k recorded beats restore the story of k beats ago, with scene and ledgers when the first of them began with the player |
| `Runner.Game.ComputeAudience` | src/runner.py:2646-2663 | the audience and origin a record gets |
| `Runner.Game.AppendHistory` | src/runner.py:2614-2681 | one record is appended with that audience and a snapshot of the current state |
| `Perception.AudienceIsPhysical` | src/runner.py:2648-2663 | a present character other than the subject sees a public line or action if and only if the zone graph lets them perceive the subject, and a whispered one if and only if they were also addressed |
| `Perception.ComputedAudienceExact` | src/runner.py:2648-2663 | where the audience is computed it is, of those addressed, the speaker and whoever present perceives them; a line for all stays public if and only if everybody present perceives the speaker, and is else for those who do |
| `Perception.ExplicitAudienceStands` | src/runner.py:2640-2646 | with an explicit origin the record has that origin, and a viewer sees it if and only if no audience was given, they are in it, or they are the speaker |
| `Perception.UnspokenAudienceStands` | src/runner.py:2646-2649 | the audience given with a thought or narration stands whatever the zones say, and without one it is for everybody |
| `Perception.PerceptionIsDirected` | src/perception.py:31-47 | without zones and for the unplaced everybody perceives everybody; else it takes the same zone or a link from the listener's zone to the subject's |
| `Perception.NarrowedExact` | src/perception.py:92-94 | witnesses are exactly the proposed names the physics admits, each once |
| `Perception.ValidateEvents` | src/perception.py:59-105 | the loop with early exit returns the first six acceptable events |
| `Perception.AcceptedInOrder` | src/perception.py:74-102 | accepted events come from increasing positions of the proposal and nothing acceptable is skipped |
| `Perception.ValidatedIsClamped` | src/perception.py:77-102 | an accepted event has a known kind, a present subject or the Narrator, stripped non-empty text, and as witnesses exactly the proposed present characters who perceive its subject, or any present ones for the Narrator |
| `Perception.AcceptanceExact` | src/perception.py:75-101 | an event is accepted if and only if it is an object with one of the five kinds, a text that is not blank, a subject who is present or the Narrator, and a witness list; kind and subject pass unchanged and the text without the blanks around it |
| `Perception.NarrowedGrows` | src/perception.py:92-94 | witnesses stand in the order the proposal first names them |
| `Perception.ValidationClamps` | src/perception.py:59-105 | at most six events, all clamped, and validating the result again changes nothing |
| `Perception.RenderedIsPerceived` | src/perception.py:119-127 | every event shown to a viewer is their own, or they are present and could perceive its subject |
| `Perception.RenderedExact` | src/perception.py:119-121 | the events shown to a viewer are exactly those they witness or are the subject of |
| `Perception.RenderedInOrder` | src/perception.py:118-128 | and they are shown in their order |
| `Perception.VoicedLineReachesWitnesses` | src/runner.py:1436-1454 | a voiced line, as it is recorded, is seen among the present by exactly its witnesses and its subject, whatever the zones say by then, and is never a whisper |
| `Runner.Game.PersistAudibleSpeech` | src/runner.py:1404-1454 | the loop over the events: each voiced line is recorded unless it is blank, nobody's, an echo, or redaction for a listener would change it given the history so far |
| `VoicedLines.RecordedExactly` | src/runner.py:1427-1454 | a voiced line without a marker in it is recorded, as it was voiced, if and only if it is not blank, belongs to a character, echoes nothing recent, and contains no hidden word of anybody it reaches |
| `VoicedLines.VoicedLinesTell` | src/runner.py:1427-1454 | over all voiced lines of a beat a word hidden from any viewer stays hidden if and only if no recorded line contains it that was put into the viewer's own mouth, or was for everybody while the viewer was away |
| `VoicedLines.VoicedLinesGuardThePresent` | src/runner.py:1416-1421 | what is hidden from a present character who is given no line is exactly what was hidden before |
| `VoicedLines.AbsentAreNotAsked` | src/runner.py:1442-1454 | a concrete scene in which a whispered code, voiced to everybody present, is known to somebody who was away |
| `Canon.NormalizeQueue` | src/agents/narrator.py:725-740 | the queue is the forced speaker, or at most three valid speakers without duplicates, never empty |
| `Canon.QueueExact` | src/agents/narrator.py:733-739 | before its cap the queue holds exactly the valid, not excluded names ahead of "Narrator" |
| `Canon.QueueInOrder` | src/agents/narrator.py:733-739 | and keeps the order of the reply |
| `Canon.NormalizeLinks` | src/agents/narrator.py:766-776 | link updates name only zones that existed before the beat and never a zone itself |
| `Canon.LinksAreObeyed` | src/agents/narrator.py:766-776 | every update of a known zone is carried out whole: afterwards the zone hears exactly the listed zones that existed before the beat, itself excepted, in the listed order and none twice |
| `Canon.NewZonesExact` | src/runner.py:1196 | the new zones are the destinations that are not zones yet |
| `Canon.PlacedExact` | src/runner.py:1208-1209 | movers stand where they were sent, everybody else where they were |
| `Canon.LinkedWellFormed` | src/runner.py:1210-1212 | link updates without self edges keep every audible target an existing other zone |
| `Canon.OpenZonesEdges` | src/runner.py:1235-1249 | each new zone and the origins of its movers hear each other, and no edge between old zones changes |
| `Canon.CanonWellFormed` | src/runner.py:1172-1249 | after canon every position and every audible target names an existing zone and no zone lists itself |
| `Canon.NewZoneIsOpen` | src/runner.py:1196-1249 | a mover into a new zone perceives a companion left behind, and the companion perceives the mover if and only if no update names the zone they came from |
| `Canon.NewZoneEdges` | src/runner.py:1235-1249 | on a stage with zones a new zone is linked both ways with exactly the zones its movers came from, and only a link update of such a zone takes its half away |
| `Canon.FirstSplitPlacesAll` | src/runner.py:1197-1206 | the first split of a stage without zones puts everybody present who does not move on the stage and places nobody else; without a destination there are still no zones |
| `Canon.StageMovesWithEveryone` | src/runner.py:1184-1194 | the location changes if and only if the update names another one and the moves leave nobody present behind; the old place's facts go with it |
| `Canon.BystandersUnchanged` | src/runner.py:1196-1249 | without a link update perception among those who did not move is unchanged, also on the first split of a stage |
| `Runner.LinkOrigins` | src/runner.py:1247-1249 | each origin gains the new zone once and no other zone changes |
| `Runner.Game.OpenNewZone` | src/runner.py:1238-1249 | one new zone opened in place |
| `Runner.Game.OpenNewZones` | src/runner.py:1215-1249 | the loop over new zones, repeated names skipped |
| `Runner.Game.ApplyCanon` | src/runner.py:1172-1213 | the in-place reconciliation equals the specified scene |
| `Runner.Game.UpdateScene` | src/runner.py:2574-2606 | reserved fields, the clearing of facts on a move, and fact writes in order |
| `Runner.Game.EvictOldestFacts` | src/runner.py:228-235 | the forty latest inserted facts stay |
| `SceneFacts.PutSize` | src/runner.py:2605 | writing a fact grows the scene only when its key is new |
| `SceneFacts.WriteWithinCap` | src/runner.py:2600-2606 | a write into a scene within the cap keeps it there, and drops a fact only when it adds a new key to a full scene: then the oldest alone |
| `SceneFacts.FactsStayWithinCap` | src/runner.py:228-235 | over every sequence of updates a scene within forty facts stays within forty |
| `SceneFacts.TailStep` | src/runner.py:228-235 | one write keeps a fact, with exactly the new keys behind it, unless it removes that fact or makes those keys forty; then the fact is gone |
| `SceneFacts.NewKeySettled` | src/runner.py:2597-2606 | past the cap too, a new key is in the updated scene if and only if it enters, is not removed later, and never has forty newer keys behind it |
| `SceneFacts.NewKeyStays` | src/runner.py:2597-2606 | an update of at most forty entries crowds out none of its own new keys, however full the scene: exactly those that enter and are not removed later are there |
| `SceneFacts.FactsComeFrom` | src/runner.py:2597-2606 | every fact after an update was there before or is one of the update's writes |
| `SceneFacts.LastWriteWins` | src/runner.py:2597-2606 | whatever is written, removed, refused or evicted, a fact that is still there has the value of the last write of its key, or its old one where nothing wrote it |
| `SceneFacts.NothingIsLost` | src/runner.py:2597-2606 | with room for every write a key is lost only to a write that removes it |
| `Text.StripIdempotent` | src/perception.py:99 | stripping twice is stripping once and costs no word |
| `Text.StripExact` | src/perception.py:99 | stripping cuts blanks off both ends, all of them and nothing else |
| `Confidentiality.CollectPayload` | src/confidentiality.py:89-104 | the two passes collect exactly the rare words within the window of an anchor |
| `Confidentiality.PayloadNeedsAnchor` | src/confidentiality.py:81-88 | a text without an anchor has no payload, and every rare anchor belongs to it |
| `Confidentiality.CollectKnown` | src/confidentiality.py:107-136 | the accumulating loops build everything a viewer may know |
| `Confidentiality.CollectHiddenWhispers` | src/confidentiality.py:139-163 | the accumulating loop builds the whispered payload the viewer neither heard nor knows |
| `WhisperTheorems.PayloadIsConfided` | src/confidentiality.py:57-104 | the guarded words of a text are exactly those of four letters or with a digit that stand at most seven words from a word with a digit, a code word in capitals, or a name inside a sentence |
| `WhisperTheorems.HiddenIsWhisperedPast` | src/confidentiality.py:139-163 | a viewer's hidden words are exactly those confided in a whisper that neither names nor comes from them, which no record they take in contains and no name, place or fact says |
| `WhisperTheorems.WhisperIsGuarded` | src/runner.py:2646-2663 | every such word of a line addressed to chosen listeners is among the scene's secrets while a present character was left out, and no cleaned value contains it |
| `WhisperTheorems.OpenLineAddsNoSecret` | src/confidentiality.py:150-156 | a line without a chosen audience, or with the explicit origin zone, adds nothing to anybody's hidden words |
| `WhisperTheorems.ThoughtIsGuarded` | src/confidentiality.py:166-200 | thought secrets are exactly the words confided in a thought that nobody says or acts and no name, place or fact says; they are secrets of the scene |
| `WhisperTheorems.SecretsOfTheScene` | src/confidentiality.py:264-288 | the scene's secrets are the thought secrets and what some present character is kept from, and nothing else |
| `Confidentiality.CollapseKeepsTokens` | src/confidentiality.py:260-261 | collapsing runs of markers costs no word |
| `Confidentiality.RedactionIsExact` | src/confidentiality.py:251-261 | redaction removes exactly the secret words, and the marker is the only word it can add |
| `Confidentiality.CleanStretchStays` | src/confidentiality.py:251-261 | a stretch without secret words and markers stays piece by piece, whatever follows |
| `Confidentiality.RunIsOneMarker` | src/confidentiality.py:259-261 | a whole run of secret words and markers with only joining characters between them becomes one marker; every text is clean stretches and runs in turn |
| `Confidentiality.CleanUpdateExact` | src/agents/narrator.py:795-800 | cleaning an update adds, drops, reorders and renames no write, turns no value into a removal, and leaves values with nothing to hide alone |
| `Confidentiality.SecretEntersByKeyOnly` | src/agents/narrator.py:795-800 | a secret word reaches the updated scene through a fact key or not at all, and only from a key of the update |
| `Confidentiality.NoLaundering` | src/confidentiality.py:264-288 | after a redacted update a word hidden from a present viewer is still hidden if and only if no fact key spells it |
| `Confidentiality.NoThoughtLaundering` | src/confidentiality.py:166-200 | the same for words that exist only in thoughts |
| `Confidentiality.LaunderedBySettledKey` | src/runner.py:2597-2606 | a word hidden from a present viewer is given away if and only if a key containing it enters the scene, no later entry removes it, and never do forty newer keys stand behind it, in a scene of any size |
| `Confidentiality.ThoughtLaunderedBySettledKey` | src/runner.py:2597-2606 | the same for a word that exists only inside thoughts |
| `Confidentiality.KeyLaunders` | src/agents/narrator.py:798-800 | one admitted key containing a hidden word makes it public, whatever the scene, its value and the redaction |
| `Confidentiality.SafeExactlyWhenGuarded` | src/confidentiality.py:284-288 | for any viewer a hidden word survives all updates with clean keys if and only if the guard's set holds it; words hidden from absent characters only are not safe |
| `Confidentiality.NoLaunderingEver` | src/agents/narrator.py:790-800 | over every run of beats, with records added and updates redacted, a word hidden from a present viewer stays hidden while no fact key contains it and no record the viewer may know voices it |
| `Confidentiality.NoThoughtLaunderingEver` | src/agents/narrator.py:790-800 | the same for a word that exists only in thoughts, while nobody says or acts it |
| `StoryClock.CountStreak` | src/roteiro.py:189-200 | the streak counted from the latest turn down is the number of progress turns after the last engaged one |
| `Runner.MeasureBeatProgress` | src/roteiro.py:155-217 | the measured coverage, turns, streak and actions of the beat |
| `StoryTheorems.ReplanKeepsPlayed` | src/roteiro.py:656-684 | whatever was generated, a replan keeps the acts reached as they were, moves the index on by at most one and keeps it in range |
| `StoryTheorems.CoverageAlwaysAdvances` | src/roteiro.py:238-240 | a beat whose anchors and actors have all landed advances in spite of cooldown, clocks and counters |
| `StoryTheorems.ReplansAreEarned` | src/roteiro.py:274-288 | a replan of a beat waits for the cooldown, and a drift follows three progress turns later than everything that engaged the beat |
| `StoryBeats.VerdictExact` | src/roteiro.py:220-288 | the verdict on a beat in terms of the records: advance when everything has come, or all actors and all but one anchor after two turns; else stay until a clock has run out and the cooldown is over; else replan, in scope of the act after two failed replans, as drifted when the last three turns touched nothing of it |
| `StoryTheorems.BeatsAreClamped` | src/roteiro.py:343-373 | only an empty intent is refused; actors are exactly the named cast members other than the controlled one, with at most five anchors and a budget of two to ten |
| `StoryBeats.BeatIsKept` | src/roteiro.py:343-373 | the clamp keeps id, intent and exit condition, exactly the admissible actors in the order they are first named, and the budget up to its bounds |
| `StoryBeats.AnchorsAreKept` | src/roteiro.py:357-361 | the anchors are the first five that are not empty, in the order they are first named |
| `StoryBeats.ActIsKept` | src/roteiro.py:376-396 | an act is kept, its duration up to its bounds, if and only if it has a summary |
| `StoryBeats.ReplannedActs` | src/roteiro.py:656-676 | an act-scope replan that is offered acts puts the new ones of the first five behind the acts reached; no other replan changes the acts |
| `StoryBeats.ReplannedIndex` | src/roteiro.py:677-690 | a replan moves to the next act if and only if the reply closes the act, one follows and it is no deadline's; the act clock restarts with a new act only; the counter is dropped by an act-scope replan or a new act and grows by a stall or drift |
| `StoryBeats.FreshExact` | src/roteiro.py:662-676 | of the offered acts exactly those are new that resemble no act reached |
| `Runner.ExpireAct` | src/runner.py:2331-2357 | the deadline branch, with its advance, replan and landing on the last act |
| `Runner.Game.MaintainRoteiro` | src/runner.py:2265-2389 | one maintenance step of the screenplay, and whether it raised |
| `StoryBeats.StepInstalls` | src/runner.py:2293-2389 | a maintenance step that neither raises nor stays makes the reply's beat the current one, as clamped, with nothing seen or spent, its turn as start, the premise kept and the old beat's outcome logged; a step that stays changes the action count only |
| `StoryBeats.StagedExactly` | src/runner.py:2293-2367 | a step stages the world event of the current act if and only if the act has a duration and has had it |
| `StoryBeats.FirstStepCompiles` | src/roteiro.py:524-535 | the first step writes the screenplay of the reply: premise, the first five acts, first beat, all counters at zero |
| `StoryBeats.RaisesExactly` | src/runner.py:2265-2389 | a step raises if and only if it needs a reply and the reply has no intent, or at first no premise or no act with a summary |
| `StoryBeats.CurrentBeatIsGenerated` | src/roteiro.py:690-702 | along every run the current beat is the clamped reply of the latest step that began one, and its start is that step's turn number |
| `StoryBeats.AnchorsSeenExactly` | src/runner.py:1485-1500 | along every run an anchor counts as seen if and only if some saved step since the current beat began has shown it |
| `StoryTheorems.DeadlineAdvances` | src/runner.py:2331-2357 | a deadline moves the index forward by exactly one and keeps the acts reached, also from the last act and when no usable act was generated |
| `StoryTheorems.MaintainKeepsPlayed` | src/runner.py:2293-2389 | no step rewrites an act already reached, moves the index back or out of range; a staged world event belongs to the act being left |
| `StoryTheorems.StagedBelowIndex` | src/runner.py:2293-2367 | along every run the staged acts strictly increase, so no act's world event is staged twice |
| `StoryTheorems.ReachedActsStay` | src/roteiro.py:656-676 | an act stays what it was when the run reached it |
| `StoryTheorems.CapOutlivesCooldown` | src/roteiro.py:60-65 | wherever three turns numbered from a beat's start on have progress records, its cooldown is over, with or without a player record in the turn |
| `StoryTheorems.StayLeavesRoom` | src/roteiro.py:267-281 | a step that keeps the beat leaves room for the turn about to be narrated |
| `StoryTheorems.BeatsAreShort` | src/roteiro.py:40-65 | at every committed state of a run of beats at most three turns are counted for the current beat |
| `StoryTheorems.CounterStep` | src/runner.py:2333-2347 | each step changes the replan counter exactly by its reset (an act-scope replan or a change of act) and its stall, inside 0..2 |
| `StoryTheorems.CounterIsExact` | src/roteiro.py:656-686 | along every run the counter is the number of stall or drift replans since the last act-scope replan or change of act, never above two |
| `StoryTheorems.ThirdStallEscalates` | src/roteiro.py:280-288 | between any three stall or drift beat replans of a run lies an act-scope replan or a change of act |
| `StoryTheorems.IdleReplanForgets` | src/roteiro.py:659-677 | on the last act, with two replans spent, a reply without acts changes neither acts nor index and still puts the counter at zero |
| `StoryTheorems.ResetOrIdle` | src/roteiro.py:656-684 | a step changes acts or index if and only if it resets the counter and is not an idle act-scope replan: one that closes no act in favour of a planned one and offers no act other than the planned ones |
| `StoryTheorems.EscalationIsReal` | src/roteiro.py:280-288 | between three stall or drift replans acts and index stay as they were if and only if all escalations and act changes in between were idle act-scope replans |
| `StoryTheorems.EntryStartsClock` | src/roteiro.py:690 | an act that becomes current starts its clock at that tick, except one appended after the clock had stopped, which goes on from the tick of the stop and may be due at once |
| `StoryTheorems.StagedOnTime` | src/runner.py:2298-2302 | along every run no act's world event is staged before the act has been current for its duration, unless the act revived a stopped clock |
| `StoryUndo.BeatIsAllowed` | src/runner.py:274-288 | every record a beat commits carries the clock and screenplay of before the beat |
| `StoryUndo.CompactIsEvict` | src/runner.py:1770-1820 | a compaction cuts the live history in front of a turn and leaves clock and screenplay alone |
| `StoryUndo.TakeBackHealthy` | src/runner.py:1579-1602 | if every turn's first snapshot holds a state within the story clock's bounds, so does the session after an undo, and every further undo too |
| `StoryUndo.EvictHealthy` | src/runner.py:1770-1772 | compaction keeps these bounds on live history, also for the undos still possible |
| `StoryUndo.HealthyForever` | src/roteiro.py:40-65 | over every run of beats, undos and compactions at most three live turns are counted for the current beat, the act index is in range and the replan counter in 0..2 |
| `StoryUndo.CountedIffTimely` | src/roteiro.py:127-132 | a turn heard now is counted for the beat if and only if the beat's start is no later than that turn's number |
| `StoryUndo.UncountedBeatStays` | src/roteiro.py:267-281 | where the beat's start is above all turn numbers no turn is counted, however many were heard, and a beat with a missing anchor or an actor stays if and only if its actions have not run out or its cooldown is not over |
| `StoryHeard.PlayCountedExactly` | src/roteiro.py:127-132 | after one more beat all live turns heard on the current beat are counted, if they were before, if and only if the turn is on time: a beat that goes on began no later than it |
| `StoryHeard.HeardAtMostThree` | src/roteiro.py:40-65 | over every run of beats, undos and compactions whose heard turns are on time, every turn heard since the current beat began, evicted ones included, is counted if and only if none of them was evicted, and then there are at most three |
| `StoryHeard.NumbersGoOn` | src/runner.py:296-298 | in every run in which no undo empties a history with evicted turns below it, every heard turn is on time, and so will be the next |
| `StoryHeard.EmptyingUndo` | src/runner.py:1579-1602 | an undo that empties the live history leaves the numbers in step if and only if the beat it goes back to began on turn 1 |
| `StoryHeard.RestartedCountHidesTurns` | src/runner.py:296-298 | a concrete run: compaction, the undo that empties the window, and fewer than fifty further player actions, all heard on one beat and none counted |
| `StoryBounds.BornOrKept` | src/runner.py:2265-2388 | a maintenance step that saves leaves a beat born on this turn with no action spent, or the one it found with this player action counted |
| `StoryBounds.KeptEarly` | src/roteiro.py:267-281 | a beat is kept only while fewer than three of its turns are live and counted, and its actions have not run out or its cooldown is not over |
| `StoryBounds.EvictPaid` | src/runner.py:1770-1772 | a compaction keeps the account that pays for evicted turns: it never takes the newest turn, and of the counted turns it leaves as many as it retains heard ones |
| `StoryBounds.HeardIsBounded` | src/roteiro.py:40-65 | in every run of player actions and compactions in which a beat after a compaction opens a player action, a beat that stalls after n actions is heard on at most 3 + 2(n-1) turns, 3 + (n-1) if every compaction retains two heard turns, and 3 if it retains three; evicted turns included, so on 7, 5 or 3 at most |
| `StoryBounds.HeardCapIsReached` | src/config.py:114 | a new session whose compactions retain one turn hears a beat on seven turns, and on five where they retain two |
| `StorySessions.MeasureReadsNoSnapshot` | src/roteiro.py:155-217 | the measure of a beat depends on turn, kind, speaker and text of the records only |
| `StorySessions.MaintenanceIsOutcome` | src/runner.py:697-740 | maintaining the screenplay on the records as they stand before the commit, without clock and screenplay in their snapshots, is the clock's step on the committed ones |
| `StorySessions.CommittedClock` | src/runner.py:740-773 | the stages leave the maintained screenplay and the skipped ticks; the commit adds one tick and the covered anchors |
| `StorySessions.CommitIsNext` | src/runner.py:697-773 | a beat of a session, committed or not, is one step of the story clock |
| `StorySessions.MoveIsStep` | src/runner.py:1552-1863 | each step of a session does to its story what the clock's step does, and archives exactly what that step evicts |
| `StorySessions.SessionsStayOnTheClock` | src/runner.py:2280-2389 | every run of beats, undos and compactions of a new session is, step by step, a run of the clock with the archive as its past, so the bounds hold; if no undo empties a compacted session, the heard turns are counted if and only if none was evicted, at most three then, and the next one will be counted |
| `StorySessions.SessionsHearBounded` | src/runner.py:1093 | over every run of player actions and compactions of a new session a beat is heard on at most seven turns whatever the windows; where every recorded beat is heard, on five with windows of two turns or more and on three with windows of three or more (the default is 200) |
| `Watcher.MovedExactly` | src/watcher.py:159-166 | a turn moved if and only if a material category was reported, whatever else was |
| `Runner.Game.AuditTurnForWatcher` | src/runner.py:2202-2216 | the counters after an audit |
| `Runner.Game.MaybeWatcherRecovery` | src/runner.py:2232-2263 | the counters after the ladder and what it lets happen |
| `Watcher.DisruptionsSpaced` | src/watcher.py:258-293 | each disruption of a run follows a tolerated silence in the same stall and keeps its distance from the latest one before |
| `Watcher.DisruptionsAreRare` | src/runner.py:2232-2263 | any two causal disruptions are at least threshold + 1 committed beats and the refractory ticks apart, with a tolerated silence between them after which nothing moved |
| `Watcher.CountersExact` | src/runner.py:2202-2263 | along every run the quiet counter is the number of latest beats that moved nothing since the last disruption, the silence flag says whether one was tolerated in that stall, and the anchor is the tick of the last disruption |
| `Watcher.LadderExact` | src/watcher.py:258-293 | after any run a beat with a free hint slot tolerates a silence, or disrupts if it is grounded, exactly in a stall past the threshold with the refractory ticks over, the silence first and once |
| `Watcher.DisruptionComes` | src/watcher.py:258-293 | from any state of the counters a scene that stays still is disrupted within two beats of the gates opening |
| `Dispositions.DispositionState.EnsureDyad` | src/disposition.py:98-118 | both axes of the pair exist, neutral when new, untouched when old |
| `Dispositions.DispositionState.IntegrateAppraisal` | src/disposition.py:379-390 | the valid shifts are folded in, in order |
| `Dispositions.DispositionState.ApplyGravity` | src/disposition.py:126-131 | every live scalar relaxes once |
| `Dispositions.DispositionState.ApplyFeedback` | src/runner.py:2228-2230 | one turn is its shifts and then one step of gravity |
| `Dispositions.RelaxSettles` | src/disposition.py:122-123 | one step of gravity leaves a scalar inside [g*b, 1-g*(1-b)] and never needs its clamp |
| `Dispositions.ScalarsStayBounded` | src/disposition.py:77-138 | over every sequence of turns all scalars stay in [0,1] and each turn ends with all of them inside that band |
| `Dispositions.TurnExact` | src/disposition.py:122-190 | a turn creates exactly the scalars of the pairs it touches, moves no set-point, pushes a scalar by 0.10 and 0.22 for each slight and strong shift that names it, up or down to the end of the scale, eases it by gravity, and lets it feel no other shift |
| `Dispositions.BandExact` | src/disposition.py:90-94 | the five bands begin at 0, 0.15, 0.35, 0.65 and 0.85 |
| `Dispositions.OneStrongShiftFlips` | src/disposition.py:160-165 | the first strong shift of a new pair moves its band up or down by one, a slight one does not, and one calm turn restores it |
| `Dispositions.GapShrinksGeometrically` | src/disposition.py:122-131 | after n calm turns the gap to the baseline is exactly (1-g)^n of what it was |
| `Dispositions.BandMonotone` | src/disposition.py:90-94 | a larger scalar never projects to a lower band |
| `Dispositions.CalmApproachesBaseline` | src/disposition.py:90-131 | calm turns never overshoot, and the band only moves towards the baseline's band |
| `Burst.BurstState.BeatSettled` | src/runner.py:1508-1536 | the stop rule, read off the kept beats: the second beat in a row without a reply, the controlled character queued, control handed back, or in a burst no reply, no new event and no time-skip summary |
| `Burst.BurstState.Play` | src/runner.py:685-793 | at most max_beats beats are committed, as filtered, each with a record, a scene change or a time skip, no earlier one settled the burst, and the reported stop reason is the true one |
| `Burst.BeatsBeforeTheEnd` | src/runner.py:1508-1536 | every beat before the end neither queued the controlled character nor handed control back, and was answered, or had something new to tell and an answered beat before it; so was the last one exactly where the burst ran out of beats or of anything to commit; each stop reason is what happened |
| `Burst.NothingToCommit` | src/runner.py:750-768 | every committed beat left a record, changed the scene or asked for a skip, and a burst that produced nothing stopped at the first that did none of these |
| `Burst.NothingToldTwice` | src/runner.py:1159-1169 | a beat of a burst keeps an event if and only if it brought it and the event is not too similar to one an earlier beat kept; everything else about the beat is as it came |
| `Burst.NovelExact` | src/runner.py:1163-1167 | the filter keeps exactly the events that repeat nothing told |
| `Burst.NovelInOrder` | src/runner.py:1163-1167 | and keeps them in their order |
| `Burst.SummariesEscape` | src/runner.py:1262-1274 | time-skip summaries are neither filtered nor remembered, and one keeps a beat without events and replies from settling the burst on the spot |
| `Burst.RunSpeakerQueue` | src/runner.py:1344-1350 | the loop voices speakers until the controlled character, absent ones skipped |
| `Burst.VoicedInOrder` | src/runner.py:1344-1350 | speakers are voiced in the order of the queue |
| `Burst.AheadExact` | src/runner.py:1346-1348 | the part of the queue ahead of the controlled character is the longest prefix without them |
| `Burst.VoicedBeforeControlled` | src/runner.py:1344-1350 | the voiced are exactly the present ones ahead of the controlled character, none twice if the queue has no duplicates |
| `JsonSchema.DefinitionDecides` | src/llm/schema.py:36-111 | the definition pass accepts exactly the schemas inside the supported subset, at every depth |
| `JsonSchema.TypeDecides` | src/llm/schema.py:114-134 | for a supported type argument the type check decides membership and meets no unknown type |
| `JsonSchema.TypeByKind` | src/llm/schema.py:114-124 | validation against one type alone: number takes exactly ints and floats and no boolean, integer exactly ints, each other type exactly its kind of value |
| `JsonSchema.TypeListIsUnion` | src/llm/schema.py:127-134 | a list of types accepts exactly the union of its entries |
| `JsonSchema.TypesCover` | src/llm/schema.py:114-124 | every value is accepted for exactly one of the seven types, an int for two |
| `JsonSchema.KeysOrKeywords` | src/llm/schema.py:160-176 | the key-by-key loop over an object demands what `properties` and `additionalProperties` demand |
| `JsonSchema.ValueDecides` | src/llm/schema.py:127-188 | on a supported schema the value pass accepts exactly the satisfying values and ends in no other exception |
| `JsonSchema.ValidateDecides` | src/llm/schema.py:191-194 | validation accepts a value if and only if the schema is in the subset and the value satisfies it; another exception can only come from the definition pass |
| `JsonSchema.DefinitionCrashes` | src/llm/schema.py:93-111 | without a null bound beside its partner, at any depth, the definition pass never ends in another exception; on a schema with no other fault it ends in one if and only if there is such a pair, and passes otherwise |
| `JsonSchema.NullBoundRaises` | src/llm/schema.py:93-95 | validation of any value against a schema with no other fault raises a TypeError if and only if some null bound stands beside its partner |
| `JsonSchema.EnumAgainstJson` | src/llm/schema.py:135-137 | an enum accepts what JSON equality accepts, and beyond that exactly the values whose every match sets a boolean against a number |
| `JsonSchema.EnumIsStrict` | src/llm/schema.py:135-137 | for all values, an enum means what JSON equality means if and only if it lists every reading of its entries: the entries with booleans and the numbers they equal exchanged anywhere |
| `JsonSchema.FlatEnumIsStrict` | src/llm/schema.py:135-137 | where arrays and objects are free of booleans, zeros and ones, that is: if and only if it lists true with 1 and false with 0 |
| `JsonSchema.AcceptedStrictly` | src/llm/schema.py:135-139 | with no boolean, zero or one in any enum or const, every accepted value meets them all by JSON equality, at every depth |
| `JsonSchema.EnumTakesTrueForOne` | src/llm/schema.py:136 | an enum of 1 accepts true |

## Left out

- CompactionTheorems.HistoryIsConserved: a `compaction.before_commit` plugin is taken to leave the draft's history alone, as the hook's purpose suggests; one that edits it is not undone by the code.
- CompactionTheorems.RestoreIsExact: checkpoint files are values inside the stack, so a missing or corrupt file and the schema version are not modelled; ids are fresh by counting.
- UndoTheorems.UndoOneBeat: the undo hook and the fields the code does not snapshot (watcher counters, turns since an injected event) are outside the statement; characters are not added or removed during a beat.
- StoryUndo.HealthyForever: a restore of a compaction is not a step of these runs, because it brings back turns the clock could not see while they were evicted; the same holds for the runs of StoryHeard, StoryBounds and StorySessions. The ceiling here is on counted live turns; for heard ones see StoryBounds.HeardIsBounded.
- StoryBounds.HeardIsBounded: undo-free runs; with undos the numbers can restart, as StoryHeard.RestartedCountHidesTurns shows.
- StorySessions.CommitIsNext: the commit hooks are taken to leave clock and screenplay alone; they are handed the whole game and could do otherwise.
- StoryTheorems.StagedBelowIndex: an undo takes the staging back together with the index, so these runs are undo-free, and so are those of CounterIsExact, EscalationIsReal and StagedOnTime; turns with the screenplay switched off change nothing and are not steps.
- Watcher.DisruptionsAreRare: undo-free runs, because undo moves the clock back but not the watcher's counters; the same for Watcher.LadderExact. Switching the watcher on or off in between is not a step.
- Runner.Game.PlayBeat: the world a commit leaves is an input, because the commit hooks may return any game; only history, anchors and revision are fixed by the beat. The story clock's part of it is constrained in StorySessions.CommitIsNext.
- Burst.BurstState.Play: the beats a burst would bring are given as a list, and compaction between beats does not occur in the source.
- Runner.Game.MaintainRoteiro: generated ids with their fallbacks, the 300-character cut of a world event and the trimming of generated strings are taken as already done; ill-typed planner fields are typed options.
- PluginDelta.CollectDelta: nested dicts are values, so the in-place update of `_assign` on its private deep copy is a function; no alias of it is visible outside.
- Json values exclude NaN, and objects do not remember key order; the schema loops visit keys in sorted order, which only decides which error is raised first.
- Model calls, prompts, retries, providers, HTTP routes, interface code, file persistence, locks and sha256 itself.
- The text engines: Unicode folding, regular expressions and SequenceMatcher are arbitrary predicates or features of a word; casefold and IGNORECASE are one folding, a word neighbouring the marker is one piece, and generated-text normalisation of fact values is not modelled.
- Coercion of booleans and numbers to fact text, and the dropping of lists and objects as fact values: an update starts from coerced text.
- Sanitising of zone names and of the name a stage gives its first zone: arbitrary strings.
- Character output guards (`secret_tokens_exposed_to`), how an echo of recent speech is recognised (an arbitrary predicate in `VoicedLines`), and redaction of perception events.
- Text projection through a viewer's identity ledger after event selection.
- What the appraisal lets through, the autonomous-event roll, presence edits and memory capture: they decide what enters a step, and the theorems hold for whatever enters.
- Configuration and command validation: each looks at one setting and touches no session state.
- Floating-point rounding: reals.
