/** What the guards protect, read off the records: who whispered what to whom, and who has heard it since. */
module WhisperTheorems {
  import opened Wrappers
  import opened Text
  import opened Model
  import opened Perception
  import opened Confidentiality

  // ---- what counts as a secret word ----------------------------------------

  /** The number of words from one place on and before another. */
  function WordsBetween(t: Text, i: nat, j: nat): nat
    requires i <= j <= |t|
  {
    |set k | i <= k < j && !t[k].Mark?|
  }

  lemma WordsMore(t: Text, i: nat, j: nat)
    requires i <= j < |t|
    ensures WordsBetween(t, i, j + 1) == WordsBetween(t, i, j) + if t[j].Mark? then 0 else 1
  {
    var was := set k | i <= k < j && !t[k].Mark?;
    var now := set k | i <= k < j + 1 && !t[k].Mark?;
    assert now == was + if t[j].Mark? then {} else {j};
  }

  /** Two places are as far apart as there are words from the earlier one on to the later one. */
  lemma {:induction false} DistanceCountsWords(t: Text, i: nat, j: nat)
    requires i <= j <= |t|
    ensures WordPosition(t, j) - WordPosition(t, i) == WordsBetween(t, i, j)
    decreases j
  {
    if i < j {
      DistanceCountsWords(t, i, j - 1);
      WordsMore(t, i, j - 1);
    }
  }

  /** Blanks, quotes and brackets. */
  predicate Skipped(p: Piece) {
    p.Mark? && p.c in " \t\r\"'\U{201C}\U{201D}\U{2018}\U{2019}\U{AB}\U{BB}()[]"
  }

  /** The place opens the text or stands right behind the end of a sentence. */
  predicate BehindEnd(t: Text, j: nat)
    requires j <= |t|
  {
    j == 0 || (t[j - 1].Mark? && t[j - 1].c in ".!?\n\U{2026}")
  }

  /** Only blanks, quotes and brackets lie between the place and the start of the text or the end of a sentence. */
  ghost predicate OpensSentence(t: Text, i: nat)
    requires i <= |t|
  {
    exists j | 0 <= j <= i :: BehindEnd(t, j) && AllSkipped(t, j, i)
  }

  predicate AllSkipped(t: Text, j: nat, i: nat)
    requires j <= i <= |t|
  {
    forall k | j <= k < i :: Skipped(t[k])
  }

  lemma SkipsAgree(p: Piece)
    ensures Skipped(p) <==> p.Mark? && p.c in SKIP_BEFORE
    ensures p.Mark? ==> (p.c in ".!?\n\U{2026}" <==> p.c in SENTENCE_END)
    ensures Skipped(p) ==> p.c !in ".!?\n\U{2026}"
  {
  }

  lemma {:induction false} SentenceStarts(t: Text, i: nat)
    requires i <= |t|
    ensures SentenceInitial(t, i) <==> OpensSentence(t, i)
  {
    if i == 0 {
      assert BehindEnd(t, 0) && AllSkipped(t, 0, 0);
    } else {
      SkipsAgree(t[i - 1]);
      assert AllSkipped(t, i, i);
      if Skipped(t[i - 1]) {
        SentenceStarts(t, i - 1);
        if OpensSentence(t, i - 1) {
          var j :| 0 <= j <= i - 1 && BehindEnd(t, j) && AllSkipped(t, j, i - 1);
          assert AllSkipped(t, j, i);
        }
        if OpensSentence(t, i) {
          var j :| 0 <= j <= i && BehindEnd(t, j) && AllSkipped(t, j, i);
          assert j <= i - 1 && AllSkipped(t, j, i - 1);
        }
      }
    }
  }

  /** A word with a digit, a code word in capitals, or a name inside a sentence. */
  ghost predicate Telling(t: Text, i: nat)
    requires i < |t|
  {
    t[i].Word? && (t[i].hasDigit || (t[i].allCaps && t[i].length >= 2) || (t[i].capital && !OpensSentence(t, i)))
  }

  predicate SevenApart(t: Text, i: nat, j: nat)
    requires i < |t| && j < |t|
  {
    (if i <= j then WordsBetween(t, i, j) else WordsBetween(t, j, i)) <= 7
  }

  /** A long word, or one with a digit, at most seven words from a telling one. */
  ghost predicate ConfidedAt(t: Text, i: nat)
    requires i < |t|
  {
    t[i].Word? && (t[i].length >= 4 || t[i].hasDigit) && exists j | 0 <= j < |t| :: Telling(t, j) && SevenApart(t, i, j)
  }

  ghost predicate Confided(t: Text, x: string) {
    exists i | 0 <= i < |t| :: ConfidedAt(t, i) && t[i].folded == x
  }

  lemma NearIsSevenApart(t: Text, i: nat, j: nat)
    requires i < |t| && j < |t|
    ensures (-(PAYLOAD_WINDOW as int) <= WordPosition(t, i) - WordPosition(t, j) <= PAYLOAD_WINDOW) <==> SevenApart(t, i, j)
  {
    if i <= j { DistanceCountsWords(t, i, j); } else { DistanceCountsWords(t, j, i); }
  }

  lemma GuardedAt(t: Text, i: nat)
    requires i < |t| && t[i].Word?
    ensures IsRare(t[i]) && NearAnchor(t, i) <==> ConfidedAt(t, i)
  {
    forall j | 0 <= j < |t| ensures IsAnchor(t, j) <==> Telling(t, j) { SentenceStarts(t, j); }
    forall j | 0 <= j < |t|
      ensures (-(PAYLOAD_WINDOW as int) <= WordPosition(t, i) - WordPosition(t, j) <= PAYLOAD_WINDOW) <==> SevenApart(t, i, j)
    {
      NearIsSevenApart(t, i, j);
    }
  }

  /** Such words are exactly the guarded ones, apart from the marker. */
  lemma PayloadIsConfided(t: Text, x: string)
    requires x != MARKER_TOKEN
    ensures x in Payload(t) <==> Confided(t, x)
  {
    forall i | 0 <= i < |t| && t[i].Word? ensures IsRare(t[i]) && NearAnchor(t, i) <==> ConfidedAt(t, i) {
      GuardedAt(t, i);
    }
  }

  // ---- who has heard it ----------------------------------------------------

  /** Every record with the word is one the viewer did not take in: prose, somebody else's thought, or a line
      with an audience they are not in. */
  ghost predicate Unheard(history: seq<TurnRecord>, viewer: string, x: string) {
    forall r | r in history && x in Tokens(r.content) ::
      || r.kind == Narration
      || (r.kind == Thought && r.speaker != viewer)
      || (r.audience.Some? && viewer !in r.audience.value && viewer != r.speaker)
  }

  /** No name, place or fact contains the word. */
  ghost predicate Unwritten(cast: Cast, scene: Scene, x: string) {
    && (forall id | id in cast :: x !in Tokens(cast[id].idText) && x !in Tokens(cast[id].name))
    && x !in Tokens(scene.location) && x !in Tokens(scene.timeOfDay)
    && forall f | f in scene.facts :: x !in Tokens(f.key) && x !in Tokens(f.value)
  }

  lemma UnwrittenIsUnknown(cast: Cast, scene: Scene, x: string)
    ensures Unwritten(cast, scene, x) <==> x !in CastTokens(cast) + SceneTokens(scene)
  {
    if id :| id in cast && (x in Tokens(cast[id].idText) || x in Tokens(cast[id].name)) {
      assert x in CharacterWords(cast[id]);
    }
    if f :| f in scene.facts && (x in Tokens(f.key) || x in Tokens(f.value)) {
      assert x in FactWords(f);
    }
  }

  lemma UnheardIsUnknown(history: seq<TurnRecord>, viewer: string, x: string)
    ensures Unheard(history, viewer, x) <==> x !in Heard(history, viewer)
  {
  }

  /** The record was whispered past the viewer and confides the word. */
  ghost predicate WhisperedPast(r: TurnRecord, viewer: string, x: string) {
    && r.origin == Whisper && r.kind != Thought && r.audience.Some?
    && viewer !in r.audience.value && viewer != r.speaker && Confided(r.content, x)
  }

  /** A viewer's hidden words, read off the records: exactly those confided in a whisper past them that they
      have not heard and nothing in the world says. */
  lemma HiddenIsWhisperedPast(history: seq<TurnRecord>, viewer: string, cast: Cast, scene: Scene, x: string)
    requires x != MARKER_TOKEN
    ensures x in HiddenWhisperTokens(history, viewer, cast, scene) <==>
      (exists r :: r in history && WhisperedPast(r, viewer, x)) && Unheard(history, viewer, x) && Unwritten(cast, scene, x)
  {
    UnwrittenIsUnknown(cast, scene, x);
    UnheardIsUnknown(history, viewer, x);
    forall r | r in history ensures WhisperedPast(r, viewer, x) <==> HiddenFrom(r, viewer) && x in Payload(r.content) {
      PayloadIsConfided(r.content, x);
    }
  }

  /** A line somebody addresses to chosen listeners is guarded from every present character who was left out:
      its confided words that they have not heard elsewhere and nothing in the world says are among the secrets
      of the scene, and no cleaned value contains them. */
  lemma WhisperIsGuarded(history: seq<TurnRecord>, cast: Cast, scene: Scene, rec: TurnRecord, there: Scene, them: Cast,
                         controlled: string, addressed: seq<string>, viewer: string, x: string)
    requires rec in history && rec.kind != Thought
    requires var a := AudienceOf(there, them, controlled, rec.speaker, rec.kind, Some(addressed), None);
             rec.audience == a.ids && rec.origin == a.origin
    requires viewer in scene.present && viewer in cast && !VisibleTo(rec, viewer)
    requires Confided(rec.content, x) && x != MARKER_TOKEN
    requires Unheard(history, viewer, x) && Unwritten(cast, scene, x)
    ensures x in FactSecrets(history, cast, scene)
    ensures forall value :: x !in Tokens(Redact(value, FactSecrets(history, cast, scene)))
  {
    assert WhisperedPast(rec, viewer, x);
    HiddenIsWhisperedPast(history, viewer, cast, scene, x);
    forall value ensures x !in Tokens(Redact(value, FactSecrets(history, cast, scene))) {
      RedactionIsExact(value, FactSecrets(history, cast, scene), x);
    }
  }

  /** A line for all who can hear it, and one whose audience is set with the origin "zone", is nobody's secret:
      it adds to no viewer's hidden words. */
  lemma OpenLineAddsNoSecret(history: seq<TurnRecord>, cast: Cast, scene: Scene, rec: TurnRecord, there: Scene, them: Cast,
                             controlled: string, supplied: Option<seq<string>>, authority: Option<Origin>, viewer: string)
    requires (supplied.None? && authority.None?) || authority == Some(Zone)
    requires var a := AudienceOf(there, them, controlled, rec.speaker, rec.kind, supplied, authority);
             rec.audience == a.ids && rec.origin == a.origin
    ensures HiddenWhisperTokens(history + [rec], viewer, cast, scene) <= HiddenWhisperTokens(history, viewer, cast, scene)
  {
    var more := history + [rec];
    assert !HiddenFrom(rec, viewer);
    assert forall r | r in history :: r in more;
    assert WhisperPayload(more, viewer) <= WhisperPayload(history, viewer);
    assert Heard(history, viewer) <= Heard(more, viewer);
  }

  /** What a thought confides is a secret of the scene as long as nobody says or acts it and nothing in the
      world says it; and there is no other thought secret. */
  lemma ThoughtIsGuarded(history: seq<TurnRecord>, cast: Cast, scene: Scene, x: string)
    requires x != MARKER_TOKEN
    ensures x in HiddenThoughtTokens(history, cast, scene) <==>
      && (exists r :: r in history && r.kind == Thought && Confided(r.content, x))
      && (forall r | r in history && x in Tokens(r.content) :: r.kind == Thought || r.kind == Narration)
      && Unwritten(cast, scene, x)
    ensures x in HiddenThoughtTokens(history, cast, scene) ==>
      x in FactSecrets(history, cast, scene) && forall value :: x !in Tokens(Redact(value, FactSecrets(history, cast, scene)))
  {
    UnwrittenIsUnknown(cast, scene, x);
    forall r | r in history ensures Confided(r.content, x) <==> x in Payload(r.content) {
      PayloadIsConfided(r.content, x);
    }
    forall value ensures x in Tokens(Redact(value, FactSecrets(history, cast, scene))) ==> x !in FactSecrets(history, cast, scene) {
      RedactionIsExact(value, FactSecrets(history, cast, scene), x);
    }
  }

  /** The scene's secrets are what some present character has not heard of a whisper, and the thought secrets;
      whispers everybody present heard are none. */
  lemma SecretsOfTheScene(history: seq<TurnRecord>, cast: Cast, scene: Scene, x: string)
    requires x != MARKER_TOKEN
    ensures x in FactSecrets(history, cast, scene) <==>
      || x in HiddenThoughtTokens(history, cast, scene)
      || (Unwritten(cast, scene, x)
          && exists viewer, r | viewer in scene.present && viewer in cast && r in history ::
               WhisperedPast(r, viewer, x) && Unheard(history, viewer, x))
  {
    forall viewer | viewer in scene.present && viewer in cast
      ensures x in HiddenWhisperTokens(history, viewer, cast, scene) <==>
        (exists r :: r in history && WhisperedPast(r, viewer, x)) && Unheard(history, viewer, x) && Unwritten(cast, scene, x)
    {
      HiddenIsWhisperedPast(history, viewer, cast, scene, x);
    }
  }
}
