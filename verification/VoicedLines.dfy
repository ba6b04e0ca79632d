/** Speech the Director voices: which events become records, and whose secrets that can cost. */
module VoicedLines {
  import opened Wrappers
  import opened Text
  import opened Model
  import opened History
  import opened Perception
  import opened Confidentiality
  import Ordering
  import Sessions

  /** Whether a line of this speaker repeats a recent one. */
  type Echoes = (Records, string, Text) -> bool

  /** The characters a voiced line is checked for. */
  ghost function Listeners(e: Event, scene: Scene, cast: Cast): set<string> {
    var heard := HeardBy(e, scene, cast);
    if heard.None? then PresentOthers(scene, cast, e.subject) else set id | id in heard.value
  }

  /** Redaction for none of the listeners would touch the line. */
  ghost predicate Guarded(h: Records, e: Event, scene: Scene, cast: Cast) {
    forall v | v in Listeners(e, scene, cast) ::
      Redact(Strip(e.content), HiddenWhisperTokens(h, v, cast, scene)) == Strip(e.content)
  }

  ghost predicate Persists(h: Records, e: Event, scene: Scene, cast: Cast, echoes: Echoes) {
    && e.kind == "audible_speech" && Strip(e.content) != [] && e.subject in cast
    && !echoes(h, e.subject, Strip(e.content))
    && Guarded(h, e, scene, cast)
  }

  /** The record of a voiced line. */
  ghost function RecordOf(e: Event, w: World, cast: Cast, step: int): TurnRecord {
    Sessions.Recorded(w, step, Sessions.Line(e.subject, Strip(e.content), Speech, HeardBy(e, w.scene, cast), Zone))
  }

  /** `_persist_audible_speech`: each event is checked against the history the earlier ones left. */
  ghost function Voice(h: Records, events: seq<Event>, w: World, cast: Cast, step: int, echoes: Echoes): Records {
    if events == [] then h
    else
      var n := |events| - 1;
      var before := Voice(h, events[..n], w, cast, step, echoes);
      if Persists(before, events[n], w.scene, cast, echoes) then before + [RecordOf(events[n], w, cast, step)] else before
  }

  // ---- what one record takes from a viewer's hidden words -------------------

  lemma HeardMore(h: Records, r: TurnRecord, viewer: string)
    ensures Heard(h + [r], viewer) == Heard(h, viewer) + if Knowable(r, viewer) then Tokens(r.content) else {}
  {
    var more := h + [r];
    assert forall x :: x in more <==> x in h || x == r;
  }

  lemma NoNewWhisper(h: Records, r: TurnRecord, viewer: string)
    requires r.origin == Zone
    ensures WhisperPayload(h + [r], viewer) == WhisperPayload(h, viewer)
  {
    var more := h + [r];
    assert forall x :: x in more <==> x in h || x == r;
  }

  /** A spoken line that is no whisper takes its words from the hidden ones of whoever sees it. */
  lemma HiddenAfter(h: Records, r: TurnRecord, viewer: string, cast: Cast, scene: Scene, x: string)
    requires r.origin == Zone && r.kind == Speech
    ensures x in HiddenWhisperTokens(h + [r], viewer, cast, scene) <==>
              x in HiddenWhisperTokens(h, viewer, cast, scene) && !(VisibleTo(r, viewer) && x in Tokens(r.content))
  {
    HeardMore(h, r, viewer);
    NoNewWhisper(h, r, viewer);
  }

  // ---- whose secrets survive -----------------------------------------------

  /** The witnesses of an event are present characters other than its subject, as validation leaves them. */
  ghost predicate WellWitnessed(e: Event, scene: Scene, cast: Cast) {
    forall id | id in e.witnesses :: id in scene.present && id in cast && id != e.subject
  }

  ghost predicate Witnessed(events: seq<Event>, scene: Scene, cast: Cast) {
    forall e | e in events :: WellWitnessed(e, scene, cast)
  }

  lemma ValidatedIsWitnessed(e: Event, scene: Scene, cast: Cast)
    requires Clamped(e, scene, cast) && NARRATOR !in cast
    ensures WellWitnessed(e, scene, cast)
  {
  }

  /** Of those who see a voiced line, all but its speaker and, where it is for everybody, the absent have been
      asked about. */
  lemma SeenIsChecked(e: Event, w: World, cast: Cast, step: int, viewer: string)
    requires WellWitnessed(e, w.scene, cast) && VisibleTo(RecordOf(e, w, cast, step), viewer)
    ensures viewer == e.subject || viewer in Listeners(e, w.scene, cast)
            || (HeardBy(e, w.scene, cast).None? && !(viewer in w.scene.present && viewer in cast))
  {
  }

  lemma CheckedHoldsNone(h: Records, e: Event, scene: Scene, cast: Cast, viewer: string, x: string)
    requires Guarded(h, e, scene, cast) && viewer in Listeners(e, scene, cast)
    requires x in HiddenWhisperTokens(h, viewer, cast, scene) && x != MARKER_TOKEN
    ensures x !in Tokens(Strip(e.content))
  {
    RedactionIsExact(Strip(e.content), HiddenWhisperTokens(h, viewer, cast, scene), x);
  }

  /** The record tells the viewer the word, and the viewer is its speaker, or absent while it is for everybody. */
  ghost predicate TellsUnchecked(r: TurnRecord, viewer: string, x: string, scene: Scene, cast: Cast) {
    && x in Tokens(r.content)
    && (r.speaker == viewer || (r.audience.None? && !(viewer in scene.present && viewer in cast)))
  }

  ghost predicate ToldBy(added: Records, viewer: string, x: string, scene: Scene, cast: Cast) {
    exists r | r in added :: TellsUnchecked(r, viewer, x, scene, cast)
  }

  lemma ToldMore(added: Records, r: TurnRecord, viewer: string, x: string, scene: Scene, cast: Cast)
    ensures ToldBy(added + [r], viewer, x, scene, cast) <==>
              ToldBy(added, viewer, x, scene, cast) || TellsUnchecked(r, viewer, x, scene, cast)
  {
    assert r in added + [r];
    forall y | y in added ensures y in added + [r] { }
  }

  /** One more voiced line. */
  lemma VoicedOne(h: Records, e: Event, w: World, cast: Cast, step: int, echoes: Echoes, viewer: string, x: string)
    requires WellWitnessed(e, w.scene, cast) && Persists(h, e, w.scene, cast, echoes) && x != MARKER_TOKEN
    ensures var r := RecordOf(e, w, cast, step);
            x in HiddenWhisperTokens(h + [r], viewer, cast, w.scene) <==>
              x in HiddenWhisperTokens(h, viewer, cast, w.scene) && !TellsUnchecked(r, viewer, x, w.scene, cast)
  {
    var r := RecordOf(e, w, cast, step);
    HiddenAfter(h, r, viewer, cast, w.scene, x);
    if VisibleTo(r, viewer) && x in HiddenWhisperTokens(h, viewer, cast, w.scene) {
      SeenIsChecked(e, w, cast, step, viewer);
      if viewer in Listeners(e, w.scene, cast) { CheckedHoldsNone(h, e, w.scene, cast, viewer, x); }
    }
  }

  /** Every record is the line of one of the events. */
  ghost predicate MadeOf(added: Records, events: seq<Event>, w: World, cast: Cast, step: int) {
    forall r | r in added :: exists e | e in events :: e.kind == "audible_speech" && r == RecordOf(e, w, cast, step)
  }

  lemma MadeOfMore(added: Records, events: seq<Event>, e: Event, w: World, cast: Cast, step: int)
    requires MadeOf(added, events, w, cast, step)
    ensures MadeOf(added, events + [e], w, cast, step)
    ensures e.kind == "audible_speech" ==> MadeOf(added + [RecordOf(e, w, cast, step)], events + [e], w, cast, step)
  {
    assert e in events + [e];
    forall r | r in added ensures exists d | d in events + [e] :: d.kind == "audible_speech" && r == RecordOf(d, w, cast, step) {
      var d :| d in events && d.kind == "audible_speech" && r == RecordOf(d, w, cast, step);
      assert d in events + [e];
    }
  }

  /** Added to the history, these records cost the viewer the hidden word exactly if one of them tells it. */
  ghost predicate CostsWhatItTells(h: Records, added: Records, viewer: string, x: string, scene: Scene, cast: Cast) {
    x in HiddenWhisperTokens(h + added, viewer, cast, scene) <==>
      x in HiddenWhisperTokens(h, viewer, cast, scene) && !ToldBy(added, viewer, x, scene, cast)
  }

  lemma CostsNothing(h: Records, viewer: string, x: string, scene: Scene, cast: Cast)
    ensures CostsWhatItTells(h, [], viewer, x, scene, cast)
  {
    assert h + [] == h;
  }

  lemma CostsOneMore(h: Records, added: Records, e: Event, w: World, cast: Cast, step: int, echoes: Echoes, viewer: string, x: string)
    requires CostsWhatItTells(h, added, viewer, x, w.scene, cast)
    requires WellWitnessed(e, w.scene, cast) && Persists(h + added, e, w.scene, cast, echoes) && x != MARKER_TOKEN
    ensures CostsWhatItTells(h, added + [RecordOf(e, w, cast, step)], viewer, x, w.scene, cast)
  {
    var r := RecordOf(e, w, cast, step);
    VoicedOne(h + added, e, w, cast, step, echoes, viewer, x);
    ToldMore(added, r, viewer, x, w.scene, cast);
    assert h + (added + [r]) == h + added + [r];
  }

  lemma VoiceStep(h: Records, events: seq<Event>, w: World, cast: Cast, step: int, echoes: Echoes, added: Records)
    requires events != [] && Voice(h, events[..|events| - 1], w, cast, step, echoes) == h + added
    ensures var e := events[|events| - 1];
            Voice(h, events, w, cast, step, echoes) ==
              if Persists(h + added, e, w.scene, cast, echoes) then h + (added + [RecordOf(e, w, cast, step)]) else h + added
  {
    assert h + added + [RecordOf(events[|events| - 1], w, cast, step)] == h + (added + [RecordOf(events[|events| - 1], w, cast, step)]);
  }

  /** The records the voiced lines of a beat add, and exactly what they cost: a word hidden from a viewer stays
      hidden unless a line that contains it was put into the viewer's own mouth, or was for everybody while the
      viewer was away. */
  lemma {:induction false} VoicedLinesTell(h: Records, events: seq<Event>, w: World, cast: Cast, step: int, echoes: Echoes,
                                           viewer: string, x: string) returns (added: Records)
    requires Witnessed(events, w.scene, cast) && x != MARKER_TOKEN
    ensures Voice(h, events, w, cast, step, echoes) == h + added
    ensures MadeOf(added, events, w, cast, step)
    ensures CostsWhatItTells(h, added, viewer, x, w.scene, cast)
  {
    added := [];
    if events == [] {
      CostsNothing(h, viewer, x, w.scene, cast);
      assert h + [] == h;
    } else {
      var n := |events| - 1;
      var e := events[n];
      assert events == events[..n] + [e];
      WitnessedParts(events[..n], e, w.scene, cast);
      added := VoicedLinesTell(h, events[..n], w, cast, step, echoes, viewer, x);
      MadeOfMore(added, events[..n], e, w, cast, step);
      VoiceStep(h, events, w, cast, step, echoes, added);
      if Persists(h + added, e, w.scene, cast, echoes) {
        CostsOneMore(h, added, e, w, cast, step, echoes, viewer, x);
        added := added + [RecordOf(e, w, cast, step)];
      }
    }
  }

  lemma WitnessedParts(events: seq<Event>, e: Event, scene: Scene, cast: Cast)
    requires Witnessed(events + [e], scene, cast)
    ensures Witnessed(events, scene, cast) && WellWitnessed(e, scene, cast)
  {
    assert e in events + [e];
    forall d | d in events ensures d in events + [e] { }
  }

  /** Nobody present loses a secret to the lines of others: what is hidden from a present character who is given
      no line is hidden after all of them. */
  lemma VoicedLinesGuardThePresent(h: Records, events: seq<Event>, w: World, cast: Cast, step: int, echoes: Echoes,
                                   viewer: string, x: string)
    requires Witnessed(events, w.scene, cast) && x != MARKER_TOKEN
    requires viewer in w.scene.present && viewer in cast && forall e | e in events :: e.subject != viewer
    ensures x in HiddenWhisperTokens(Voice(h, events, w, cast, step, echoes), viewer, cast, w.scene) <==>
            x in HiddenWhisperTokens(h, viewer, cast, w.scene)
  {
    var added := VoicedLinesTell(h, events, w, cast, step, echoes, viewer, x);
  }

  // ---- which lines are recorded --------------------------------------------

  /** Who hears the line besides its speaker: everybody present when they are all witnesses, else the witnesses. */
  predicate Reaches(e: Event, scene: Scene, cast: Cast, v: string) {
    if forall id | id in scene.present && id in cast && id != e.subject :: id in e.witnesses
    then v in scene.present && v in cast && v != e.subject
    else v in e.witnesses && v in cast
  }

  lemma ListenersExact(e: Event, scene: Scene, cast: Cast, v: string)
    ensures v in Listeners(e, scene, cast) <==> Reaches(e, scene, cast, v)
  {
    var witnesses := set id | id in e.witnesses && id in cast;
    Ordering.SortedIsSorted(witnesses);
    if PresentOthers(scene, cast, e.subject) <= witnesses {
      forall id | id in scene.present && id in cast && id != e.subject ensures id in e.witnesses {
        assert id in PresentOthers(scene, cast, e.subject);
      }
    }
  }

  lemma GuardExact(t: Text, secret: set<string>)
    requires Redacted !in t && MARKER_TOKEN !in Tokens(t)
    ensures Redact(t, secret) == t <==> Tokens(t) !! secret
  {
    if Tokens(t) !! secret {
      forall i | 0 <= i < |t| ensures !Hit(t[i], secret) {
        assert t[i] in t;
        if t[i].Word? { assert TokenOf(t[i]) in Tokens(t); }
      }
      CleanStretchStays(t, [], secret);
      assert t + [] == t;
    } else {
      var x :| x in Tokens(t) && x in secret;
      RedactionIsExact(t, secret, x);
    }
  }

  /** A line that holds no marker is recorded, as it was voiced, exactly when it is not blank, is somebody's, echoes
      nothing recent and contains no hidden word of anybody it reaches. */
  lemma RecordedExactly(h: Records, e: Event, w: World, cast: Cast, step: int, echoes: Echoes)
    requires Redacted !in e.content && MARKER_TOKEN !in Tokens(e.content)
    ensures var r := RecordOf(e, w, cast, step);
            && r.turn == step && r.speaker == e.subject && r.kind == Speech && r.content == Strip(e.content)
            && (Voice(h, [e], w, cast, step, echoes) == h + [r] <==>
                  && e.kind == "audible_speech" && !Blank(e.content) && e.subject in cast
                  && !echoes(h, e.subject, Strip(e.content))
                  && forall v | v in cast && Reaches(e, w.scene, cast, v) ::
                       Tokens(e.content) !! HiddenWhisperTokens(h, v, cast, w.scene))
            && (Voice(h, [e], w, cast, step, echoes) == h + [r] || Voice(h, [e], w, cast, step, echoes) == h)
  {
    var t := Strip(e.content);
    StripEmpties(e.content);
    StripIdempotent(e.content);
    var before, after := StripExact(e.content);
    assert Redacted !in t;
    forall v | v in cast
      ensures v in Listeners(e, w.scene, cast) <==> Reaches(e, w.scene, cast, v)
      ensures Redact(t, HiddenWhisperTokens(h, v, cast, w.scene)) == t <==> Tokens(t) !! HiddenWhisperTokens(h, v, cast, w.scene)
    {
      ListenersExact(e, w.scene, cast, v);
      GuardExact(t, HiddenWhisperTokens(h, v, cast, w.scene));
    }
    ListenersInCast(e, w.scene, cast);
    assert [e][..0] == [] && h + [] == h;
    VoiceStep(h, [e], w, cast, step, echoes, []);
    assert |h + [RecordOf(e, w, cast, step)]| != |h|;
  }

  lemma ListenersInCast(e: Event, scene: Scene, cast: Cast)
    ensures forall v | v in Listeners(e, scene, cast) :: v in cast
  {
    Ordering.SortedIsSorted(set id | id in e.witnesses && id in cast);
  }

  // ---- a secret told to the absent ------------------------------------------

  const ANA := "ana"
  const BOB := "bob"
  const DAN := "dan"

  function Code(): Text { [Word("4471", 4, true, false, false)] }

  lemma CodeIsSecret()
    ensures Strip(Code()) == Code() && "4471" in Payload(Code()) && Tokens(Code()) == {"4471"}
  {
    PayloadNeedsAnchor(Code());
    assert IsAnchor(Code(), 0) && IsRare(Code()[0]) && Code()[0] in Code();
    assert StripLeft(Code()) == Code();
  }

  ghost function Whispered(w: World): TurnRecord {
    TurnRecord(1, ANA, Code(), Speech, Some([BOB]), Whisper, w)
  }

  lemma HiddenFromDan(w: World, cast: Cast)
    requires cast == map[ANA := Character([], []), BOB := Character([], []), DAN := Character([], [])]
    requires w.scene.location == [] && w.scene.timeOfDay == [] && w.scene.facts == []
    ensures "4471" in HiddenWhisperTokens([Whispered(w)], DAN, cast, w.scene)
    ensures HiddenWhisperTokens([Whispered(w)], BOB, cast, w.scene) == {}
  {
    var r := Whispered(w);
    CodeIsSecret();
    assert ANA[0] != DAN[0] && BOB[0] != DAN[0];
    assert HiddenFrom(r, DAN) && !VisibleTo(r, DAN) && r in [r];
    assert CastTokens(cast) == {} && SceneTokens(w.scene) == {} && Heard([r], DAN) == {};
    assert !HiddenFrom(r, BOB) && WhisperPayload([r], BOB) == {};
  }

  /** Ana whispered the code to Bob; Dan is away, and the Director lets Ana say it aloud to Bob. The line is for
      everybody, because Bob is everybody there is, and Dan will know the code. */
  lemma AbsentAreNotAsked(w: World, cast: Cast, echoes: Echoes, step: int)
    requires cast == map[ANA := Character([], []), BOB := Character([], []), DAN := Character([], [])]
    requires w.scene.present == [ANA, BOB]
    requires w.scene.location == [] && w.scene.timeOfDay == [] && w.scene.facts == []
    requires !echoes([Whispered(w)], ANA, Code())
    ensures var e := Event("audible_speech", ANA, Code(), [BOB]);
            && WellWitnessed(e, w.scene, cast)
            && "4471" in HiddenWhisperTokens([Whispered(w)], DAN, cast, w.scene)
            && "4471" !in HiddenWhisperTokens(Voice([Whispered(w)], [e], w, cast, step, echoes), DAN, cast, w.scene)
  {
    var h, e := [Whispered(w)], Event("audible_speech", ANA, Code(), [BOB]);
    HiddenFromDan(w, cast);
    CodeIsSecret();
    assert ANA[0] != BOB[0];
    assert PresentOthers(w.scene, cast, ANA) == {BOB};
    assert HeardBy(e, w.scene, cast).None?;
    assert Persists(h, e, w.scene, cast, echoes);
    VoiceStep(h, [e], w, cast, step, echoes, []);
    assert [e][..0] == [] && h + [] == h;
    var r := RecordOf(e, w, cast, step);
    assert Voice(h, [e], w, cast, step, echoes) == h + [r];
    HiddenAfter(h, r, DAN, cast, w.scene, "4471");
  }
}
