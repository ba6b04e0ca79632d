/** Secret tokens of whispers and thoughts, and why a redacted scene update cannot launder one. */
module Confidentiality {
  import opened Wrappers
  import opened Text
  import opened Model
  import opened SceneFacts

  // ---- payload -------------------------------------------------------------

  const PAYLOAD_WINDOW: nat := 7
  const SENTENCE_END: set<char> := {'.', '!', '?', '\n', '\U{2026}'}
  const SKIP_BEFORE: set<char> :=
    {' ', '\t', '\r', '"', '\'', '\U{201C}', '\U{201D}', '\U{2018}', '\U{2019}', '\U{AB}', '\U{BB}', '(', ')', '[', ']'}

  /** `_sentence_initial`: the place opens the text or a sentence. */
  predicate SentenceInitial(t: Text, i: nat)
    requires i <= |t|
  {
    i == 0 ||
    (t[i - 1].Mark? && (if t[i - 1].c in SKIP_BEFORE then SentenceInitial(t, i - 1) else t[i - 1].c in SENTENCE_END))
  }

  predicate IsRare(p: Piece) {
    match p
    case Word(_, n, digit, _, _) => n >= 4 || digit
    case Redacted => true
    case Mark(_) => false
  }

  predicate IsAnchor(t: Text, i: nat)
    requires i < |t|
  {
    t[i].Word? &&
    (t[i].hasDigit || (t[i].length >= 2 && t[i].allCaps) || (t[i].capital && !SentenceInitial(t, i)))
  }

  /** Position of a word among the words. */
  function WordPosition(t: Text, i: nat): nat
    requires i <= |t|
  {
    if i == 0 then 0 else WordPosition(t, i - 1) + if t[i - 1].Mark? then 0 else 1
  }

  predicate NearAnchor(t: Text, i: nat)
    requires i < |t|
  {
    exists j | 0 <= j < |t| ::
      IsAnchor(t, j) && -(PAYLOAD_WINDOW as int) <= WordPosition(t, i) - WordPosition(t, j) <= PAYLOAD_WINDOW
  }

  function Payload(t: Text): (r: set<string>)
    ensures r <= Tokens(t)
  {
    set i | 0 <= i < |t| && IsRare(t[i]) && NearAnchor(t, i) :: TokenOf(t[i])
  }

  /** The payload among the first `n` pieces. */
  function Gathered(t: Text, n: nat): set<string>
    requires n <= |t|
  {
    set k | 0 <= k < n && IsRare(t[k]) && NearAnchor(t, k) :: TokenOf(t[k])
  }

  lemma GatheredNext(t: Text, i: nat)
    requires i < |t|
    ensures Gathered(t, i + 1) == Gathered(t, i) + if IsRare(t[i]) && NearAnchor(t, i) then {TokenOf(t[i])} else {}
  {
  }

  /** The two passes of `payload_tokens`: where the anchors are, then the rare words near one. */
  method CollectPayload(t: Text) returns (payload: set<string>)
    ensures payload == Payload(t)
  {
    var anchors := CollectAnchors(t);
    payload := {};
    if anchors == [] {
      forall i | 0 <= i < |t| ensures !NearAnchor(t, i) { NearCollected(t, i, anchors); }
      return;
    }
    var position := 0;
    for i := 0 to |t|
      invariant position == WordPosition(t, i)
      invariant payload == Gathered(t, i)
    {
      GatheredNext(t, i);
      var near := exists a | a in anchors :: -(PAYLOAD_WINDOW as int) <= position - a <= PAYLOAD_WINDOW;
      NearCollected(t, i, anchors);
      if IsRare(t[i]) && near {
        payload := payload + {TokenOf(t[i])};
      }
      if !t[i].Mark? {
        position := position + 1;
      }
    }
  }

  /** The word positions of the anchors before `n`. */
  predicate AnchorsAre(t: Text, n: nat, anchors: seq<nat>)
    requires n <= |t|
  {
    && (forall a | a in anchors :: exists j | 0 <= j < n :: IsAnchor(t, j) && WordPosition(t, j) == a)
    && (forall j | 0 <= j < n && IsAnchor(t, j) :: WordPosition(t, j) in anchors)
  }

  lemma NearCollected(t: Text, i: nat, anchors: seq<nat>)
    requires i < |t| && AnchorsAre(t, |t|, anchors)
    ensures NearAnchor(t, i) <==>
      exists a | a in anchors :: -(PAYLOAD_WINDOW as int) <= WordPosition(t, i) - a <= PAYLOAD_WINDOW
  {
  }

  method CollectAnchors(t: Text) returns (anchors: seq<nat>)
    ensures AnchorsAre(t, |t|, anchors)
  {
    anchors := [];
    var position := 0;
    for i := 0 to |t|
      invariant position == WordPosition(t, i)
      invariant AnchorsAre(t, i, anchors)
    {
      if IsAnchor(t, i) {
        anchors := anchors + [position];
      }
      if !t[i].Mark? {
        position := position + 1;
      }
    }
  }

  /** A text without an anchor has nothing to guard, and every rare anchor is guarded. */
  lemma PayloadNeedsAnchor(t: Text)
    ensures (forall i | 0 <= i < |t| :: !IsAnchor(t, i)) ==> Payload(t) == {}
    ensures forall i | 0 <= i < |t| && IsAnchor(t, i) && IsRare(t[i]) :: TokenOf(t[i]) in Payload(t)
  {
    forall i | 0 <= i < |t| && IsAnchor(t, i) && IsRare(t[i]) ensures TokenOf(t[i]) in Payload(t) {
      assert NearAnchor(t, i);
    }
  }

  // ---- who knows what ------------------------------------------------------

  /** Records whose words `viewer` may know. */
  predicate Knowable(rec: TurnRecord, viewer: string) {
    && rec.kind != Narration
    && (rec.kind == Thought ==> rec.speaker == viewer)
    && VisibleTo(rec, viewer)
  }

  function FactWords(f: Fact): set<string> {
    Tokens(f.key) + Tokens(f.value)
  }

  function FactTokens(facts: seq<Fact>): set<string> {
    set f, x | f in facts && x in FactWords(f) :: x
  }

  function SceneTokens(scene: Scene): set<string> {
    Tokens(scene.location) + Tokens(scene.timeOfDay) + FactTokens(scene.facts)
  }

  function CharacterWords(c: Character): set<string> {
    Tokens(c.idText) + Tokens(c.name)
  }

  function CastTokens(cast: Cast): set<string> {
    set id, x | id in cast && x in CharacterWords(cast[id]) :: x
  }

  function Heard(history: seq<TurnRecord>, viewer: string): set<string> {
    set rec, x | rec in history && Knowable(rec, viewer) && x in Tokens(rec.content) :: x
  }

  function KnownTokens(history: seq<TurnRecord>, viewer: string, cast: Cast, scene: Scene): set<string> {
    Heard(history, viewer) + CastTokens(cast) + SceneTokens(scene)
  }

  predicate HiddenFrom(rec: TurnRecord, viewer: string) {
    rec.audience.Some? && rec.origin == Whisper && rec.kind != Thought && !VisibleTo(rec, viewer)
  }

  function WhisperPayload(history: seq<TurnRecord>, viewer: string): set<string> {
    set rec, x | rec in history && HiddenFrom(rec, viewer) && x in Payload(rec.content) :: x
  }

  function HiddenWhisperTokens(history: seq<TurnRecord>, viewer: string, cast: Cast, scene: Scene): set<string> {
    WhisperPayload(history, viewer) - KnownTokens(history, viewer, cast, scene)
  }

  function ThoughtPayload(history: seq<TurnRecord>): set<string> {
    set rec, x | rec in history && rec.kind == Thought && x in Payload(rec.content) :: x
  }

  function Voiced(history: seq<TurnRecord>): set<string> {
    set rec, x | rec in history && rec.kind != Thought && rec.kind != Narration && x in Tokens(rec.content) :: x
  }

  function HiddenThoughtTokens(history: seq<TurnRecord>, cast: Cast, scene: Scene): set<string> {
    ThoughtPayload(history) - (Voiced(history) + CastTokens(cast) + SceneTokens(scene))
  }

  /** `scene_fact_secret_tokens`. */
  function FactSecrets(history: seq<TurnRecord>, cast: Cast, scene: Scene): set<string> {
    HiddenThoughtTokens(history, cast, scene)
    + set v, x | v in scene.present && v in cast && x in HiddenWhisperTokens(history, v, cast, scene) :: x
  }

  lemma FactTokensSnoc(facts: seq<Fact>, f: Fact)
    ensures FactTokens(facts + [f]) == FactTokens(facts) + FactWords(f)
  {
    assert f in facts + [f];
  }

  lemma CastTokensMore(cast: Cast, ids: set<string>, id: string)
    requires ids <= cast.Keys && id in ids
    ensures CastTokens(map i | i in cast.Keys - (ids - {id}) :: cast[i])
         == CastTokens(map i | i in cast.Keys - ids :: cast[i]) + CharacterWords(cast[id])
  {
    var old', new' := map i | i in cast.Keys - ids :: cast[i], map i | i in cast.Keys - (ids - {id}) :: cast[i];
    assert id in new' && new'[id] == cast[id];
    assert forall i | i in old' :: i in new' && new'[i] == old'[i];
    assert forall i | i in new' :: i == id || (i in old' && new'[i] == old'[i]);
  }

  // The accumulating loops of the source, against the sets above.

  method CollectKnown(history: seq<TurnRecord>, viewer: string, cast: Cast, scene: Scene) returns (known: set<string>)
    ensures known == KnownTokens(history, viewer, cast, scene)
  {
    known := {};
    for i := 0 to |history|
      invariant known == Heard(history[..i], viewer)
    {
      assert history[..i + 1] == history[..i] + [history[i]];
      if Knowable(history[i], viewer) {
        known := known + Tokens(history[i].content);
      }
    }
    assert history[..|history|] == history;
    ghost var heard := known;
    var ids := cast.Keys;
    while ids != {}
      invariant ids <= cast.Keys
      invariant known == heard + CastTokens(map id | id in cast.Keys - ids :: cast[id])
    {
      var id :| id in ids;
      CastTokensMore(cast, ids, id);
      known := known + Tokens(cast[id].idText) + Tokens(cast[id].name);
      ids := ids - {id};
    }
    assert (map id | id in cast.Keys - ids :: cast[id]) == cast;
    known := known + Tokens(scene.location) + Tokens(scene.timeOfDay);
    ghost var base := known;
    for i := 0 to |scene.facts|
      invariant known == base + FactTokens(scene.facts[..i])
    {
      FactTokensSnoc(scene.facts[..i], scene.facts[i]);
      assert scene.facts[..i + 1] == scene.facts[..i] + [scene.facts[i]];
      known := known + Tokens(scene.facts[i].key) + Tokens(scene.facts[i].value);
    }
    assert scene.facts[..|scene.facts|] == scene.facts;
  }

  method CollectHiddenWhispers(history: seq<TurnRecord>, viewer: string, cast: Cast, scene: Scene) returns (secret: set<string>)
    ensures secret == HiddenWhisperTokens(history, viewer, cast, scene)
  {
    var known := CollectKnown(history, viewer, cast, scene);
    secret := {};
    for i := 0 to |history|
      invariant secret == WhisperPayload(history[..i], viewer) - known
    {
      assert history[..i + 1] == history[..i] + [history[i]];
      if HiddenFrom(history[i], viewer) {
        secret := secret + (Payload(history[i].content) - known);
      }
    }
    assert history[..|history|] == history;
  }

  // ---- redaction -----------------------------------------------------------

  /** The characters a run of markers may have between them: [\s\-,;:/.]. */
  predicate Joins(p: Piece) {
    p.Mark? && (IsSpace(p.c) || p.c in "-,;:/.")
  }

  function GapLength(t: Text): (n: nat)
    ensures n <= |t|
  {
    if t != [] && Joins(t[0]) then 1 + GapLength(t[1..]) else 0
  }

  /** A marker at the head of a text has another behind it, across nothing but joining characters. */
  predicate Follows(p: Piece, rest: Text) {
    p.Redacted? && GapLength(rest) < |rest| && rest[GapLength(rest)].Redacted?
  }

  /** Runs of markers become one marker. */
  function Collapse(t: Text): Text
    decreases |t|
  {
    if t == [] then []
    else
      var rest := t[1..];
      if Follows(t[0], rest) then Collapse(rest[GapLength(rest)..]) else [t[0]] + Collapse(rest)
  }

  lemma TokensAppend(a: Text, b: Text)
    ensures Tokens(a + b) == Tokens(a) + Tokens(b)
  {
  }

  lemma {:induction false} CollapseKeepsTokens(t: Text)
    ensures Tokens(Collapse(t)) == Tokens(t)
    decreases |t|
  {
    if t != [] {
      var rest := t[1..];
      assert t == [t[0]] + rest;
      TokensAppend([t[0]], rest);
      if Follows(t[0], rest) {
        CollapseKeepsTokens(rest[GapLength(rest)..]);
        RunKeepsTokens(rest);
      } else {
        CollapseKeepsTokens(rest);
        TokensAppend([t[0]], Collapse(rest));
      }
    }
  }

  /** Dropping a marker and the gap behind it costs no word when another marker follows. */
  lemma RunKeepsTokens(rest: Text)
    requires Follows(Redacted, rest)
    ensures Tokens(rest[GapLength(rest)..]) == Tokens([Redacted]) + Tokens(rest)
  {
    var gap, left := rest[..GapLength(rest)], rest[GapLength(rest)..];
    GapHasNoWords(rest);
    assert rest == gap + left && left == [left[0]] + left[1..];
    TokensAppend(gap, left);
    TokensAppend([left[0]], left[1..]);
  }

  lemma {:induction false} GapHasNoWords(t: Text)
    ensures Tokens(t[..GapLength(t)]) == {}
  {
    if t != [] && Joins(t[0]) {
      GapHasNoWords(t[1..]);
      assert t[..GapLength(t)] == [t[0]] + t[1..][..GapLength(t[1..])];
    }
  }

  function MarkedPiece(p: Piece, secret: set<string>): Text {
    match p
    case Word(w, _, _, _, _) => if w in secret then [Redacted] else [p]
    case Redacted => if MARKER_TOKEN in secret then [Mark('['), Redacted, Mark(']')] else [Redacted]
    case Mark(_) => [p]
  }

  function Marked(t: Text, secret: set<string>): Text {
    if t == [] then [] else MarkedPiece(t[0], secret) + Marked(t[1..], secret)
  }

  function Redact(t: Text, secret: set<string>): Text {
    if t == [] || secret == {} then t else Collapse(Marked(t, secret))
  }

  lemma {:induction false} MarkedTokens(t: Text, secret: set<string>, x: string)
    requires x != MARKER_TOKEN
    ensures x in Tokens(Marked(t, secret)) <==> x in Tokens(t) && x !in secret
  {
    if t != [] {
      MarkedTokens(t[1..], secret, x);
      TokensAppend(MarkedPiece(t[0], secret), Marked(t[1..], secret));
      TokensAppend([t[0]], t[1..]);
      assert t == [t[0]] + t[1..];
      assert x in Tokens(MarkedPiece(t[0], secret)) <==> x in Tokens([t[0]]) && x !in secret;
    }
  }

  /** Redaction removes exactly the secret words; the marker is the only word it can add. */
  lemma RedactionIsExact(t: Text, secret: set<string>, x: string)
    requires x != MARKER_TOKEN
    ensures x in Tokens(Redact(t, secret)) <==> x in Tokens(t) && x !in secret
  {
    MarkedTokens(t, secret, x);
    CollapseKeepsTokens(Marked(t, secret));
  }

  // ---- what redaction leaves, in order -------------------------------------

  /** A piece that redaction turns into the marker, or that is one already. */
  predicate Hit(p: Piece, secret: set<string>) {
    p.Redacted? || (p.Word? && p.folded in secret)
  }

  /** Secret words and markers with nothing but joining characters between them. */
  ghost predicate IsRun(t: Text, secret: set<string>) {
    && t != [] && Hit(t[0], secret) && Hit(t[|t| - 1], secret)
    && forall i | 0 <= i < |t| :: Hit(t[i], secret) || Joins(t[i])
  }

  /** Nothing in `rest` continues a run: behind its joining characters it ends or stands a clean piece. */
  predicate RunIsOver(rest: Text, secret: set<string>) {
    rest == [] || (if Joins(rest[0]) then RunIsOver(rest[1..], secret) else !Hit(rest[0], secret))
  }

  lemma {:induction false} MarkedAt(t: Text, secret: set<string>)
    requires MARKER_TOKEN !in secret
    ensures |Marked(t, secret)| == |t|
    ensures forall i | 0 <= i < |t| :: Marked(t, secret)[i] == if Hit(t[i], secret) then Redacted else t[i]
  {
    if t != [] { MarkedAt(t[1..], secret); }
  }

  lemma {:induction false} MarkedAppend(a: Text, b: Text, secret: set<string>)
    ensures Marked(a + b, secret) == Marked(a, secret) + Marked(b, secret)
  {
    if a == [] {
      assert a + b == b;
    } else {
      assert (a + b)[1..] == a[1..] + b;
      MarkedAppend(a[1..], b, secret);
    }
  }

  lemma CollapseStep(p: Piece, rest: Text)
    ensures Collapse([p] + rest) == if Follows(p, rest) then Collapse(rest[GapLength(rest)..]) else [p] + Collapse(rest)
  {
    assert ([p] + rest)[1..] == rest;
  }

  lemma {:induction false} OverFollowsNot(rest: Text)
    requires RunIsOver(rest, {})
    ensures !Follows(Redacted, rest)
  {
    if rest != [] && Joins(rest[0]) { OverFollowsNot(rest[1..]); }
  }

  lemma {:induction false} MarkedOver(rest: Text, secret: set<string>)
    requires MARKER_TOKEN !in secret && RunIsOver(rest, secret)
    ensures RunIsOver(Marked(rest, secret), {})
  {
    if rest != [] {
      MarkedAppend([rest[0]], rest[1..], secret);
      assert rest == [rest[0]] + rest[1..] && [rest[0]][1..] == [];
      assert Marked(rest, secret)[1..] == Marked(rest[1..], secret);
      if Joins(rest[0]) { MarkedOver(rest[1..], secret); }
    }
  }

  /** Joining characters between two markers are skipped. */
  lemma {:induction false} GapSkipped(t: Text, k: nat)
    requires k < |t| && t[k].Redacted? && forall i | 0 <= i < k :: Joins(t[i])
    ensures GapLength(t) == k
  {
    if k > 0 { GapSkipped(t[1..], k - 1); }
  }

  lemma RunHead(gap: Text, left: Text)
    requires left != [] && left[0].Redacted? && forall i | 0 <= i < |gap| :: Joins(gap[i])
    ensures Collapse([Redacted] + (gap + left)) == Collapse(left)
  {
    var rest := gap + left;
    GapSkipped(rest, |gap|);
    CollapseStep(Redacted, rest);
    assert rest[|gap|..] == left;
  }

  lemma LastOfRun(rest: Text)
    requires RunIsOver(rest, {})
    ensures Collapse([Redacted] + rest) == [Redacted] + Collapse(rest)
  {
    OverFollowsNot(rest);
    CollapseStep(Redacted, rest);
  }

  lemma Regrouped(run: Text, next: nat, rest: Text)
    requires 1 <= next <= |run| && run[0].Redacted?
    ensures run + rest == [Redacted] + (run[1..next] + (run[next..] + rest))
  {
  }

  /** A run of markers leaves one, and what follows it is collapsed on its own. */
  lemma {:induction false} CollapseRun(run: Text, rest: Text)
    requires IsRun(run, {}) && RunIsOver(rest, {})
    ensures Collapse(run + rest) == [Redacted] + Collapse(rest)
    decreases |run|
  {
    if |run| == 1 {
      assert run == [Redacted];
      LastOfRun(rest);
    } else {
      var next := NextMarker(run, 1);
      CollapseRun(run[next..], rest);
      RunHead(run[1..next], run[next..] + rest);
      Regrouped(run, next, rest);
    }
  }

  lemma {:induction false} NextMarker(run: Text, from: nat) returns (next: nat)
    requires IsRun(run, {}) && from < |run|
    ensures from <= next < |run| && run[next].Redacted? && forall i | from <= i < next :: Joins(run[i])
    decreases |run| - from
  {
    next := from;
    if !run[from].Redacted? { next := NextMarker(run, from + 1); }
  }

  /** What stands in front of the first secret word stays as it is. */
  lemma {:induction false} CollapseClean(t: Text, rest: Text)
    requires forall i | 0 <= i < |t| :: !t[i].Redacted?
    ensures Collapse(t + rest) == t + Collapse(rest)
  {
    if t == [] {
      assert t + rest == rest;
    } else {
      assert t + rest == [t[0]] + (t[1..] + rest);
      CollapseStep(t[0], t[1..] + rest);
      CollapseClean(t[1..], rest);
    }
  }

  lemma {:induction false} MarkedClean(t: Text, secret: set<string>)
    requires forall i | 0 <= i < |t| :: !Hit(t[i], secret)
    ensures Marked(t, secret) == t
  {
    if t != [] { MarkedClean(t[1..], secret); }
  }

  /** A stretch with nothing to hide and no marker in it is left as it is. */
  lemma CleanStretchStays(t: Text, rest: Text, secret: set<string>)
    requires forall i | 0 <= i < |t| :: !Hit(t[i], secret)
    ensures Redact(t + rest, secret) == t + Redact(rest, secret)
  {
    if secret != {} {
      MarkedAppend(t, rest, secret);
      MarkedClean(t, secret);
      CollapseClean(t, Marked(rest, secret));
    }
  }

  lemma RunIsMarked(run: Text, secret: set<string>)
    requires MARKER_TOKEN !in secret && IsRun(run, secret)
    ensures IsRun(Marked(run, secret), {})
  {
    MarkedAt(run, secret);
  }

  /** A run of secret words, whole, becomes one marker. Every text is clean stretches and runs in turn, so
      with `CleanStretchStays` this is all that redaction does to it, in order. */
  lemma RunIsOneMarker(run: Text, rest: Text, secret: set<string>)
    requires MARKER_TOKEN !in secret && secret != {} && IsRun(run, secret) && RunIsOver(rest, secret)
    ensures Redact(run + rest, secret) == [Redacted] + Redact(rest, secret)
  {
    MarkedAppend(run, rest, secret);
    RunIsMarked(run, secret);
    MarkedOver(rest, secret);
    CollapseRun(Marked(run, secret), Marked(rest, secret));
  }

  // ---- laundering ----------------------------------------------------------

  /** The text part of `_clean_fact_value`. */
  function CleanValue(v: Option<Text>, secret: set<string>): Option<Text> {
    if v.None? then None else Some(Redact(v.value, secret))
  }

  /** The scene update as `narrate` hands it on: every value redacted, the keys untouched. */
  function CleanUpdate(u: SceneUpdate, secret: set<string>): SceneUpdate {
    SceneUpdate(CleanValue(u.location, secret), CleanValue(u.timeOfDay, secret),
                seq(|u.writes|, i requires 0 <= i < |u.writes| => FactWrite(u.writes[i].key, CleanValue(u.writes[i].value, secret))))
  }

  ghost predicate Innocent(v: Option<Text>, secret: set<string>) {
    v.Some? ==> forall i | 0 <= i < |v.value| :: !Hit(v.value[i], secret)
  }

  /** Cleaning never adds, drops, reorders or renames a write and never turns a value into a removal, and what
      holds no secret word and no marker it leaves alone. */
  lemma CleanUpdateExact(u: SceneUpdate, secret: set<string>)
    ensures var c := CleanUpdate(u, secret);
            && c.location.Some? == u.location.Some? && c.timeOfDay.Some? == u.timeOfDay.Some?
            && |c.writes| == |u.writes|
            && (forall i | 0 <= i < |u.writes| ::
                  && c.writes[i].key == u.writes[i].key && c.writes[i].value.Some? == u.writes[i].value.Some?
                  && (Innocent(u.writes[i].value, secret) ==> c.writes[i] == u.writes[i]))
            && (Innocent(u.location, secret) ==> c.location == u.location)
            && (Innocent(u.timeOfDay, secret) ==> c.timeOfDay == u.timeOfDay)
  {
    InnocentStays(u.location, secret);
    InnocentStays(u.timeOfDay, secret);
    forall i | 0 <= i < |u.writes| && Innocent(u.writes[i].value, secret)
      ensures CleanUpdate(u, secret).writes[i] == u.writes[i]
    {
      InnocentStays(u.writes[i].value, secret);
    }
  }

  lemma InnocentStays(v: Option<Text>, secret: set<string>)
    ensures Innocent(v, secret) ==> CleanValue(v, secret) == v
  {
    if Innocent(v, secret) && v.Some? {
      CleanStretchStays(v.value, [], secret);
      assert v.value + [] == v.value;
    }
  }

  function KeyTokens(u: SceneUpdate): set<string> {
    set w, x | w in u.writes && x in Tokens(w.key) :: x
  }

  function FactKeyTokens(facts: seq<Fact>): set<string> {
    set f, x | f in facts && x in Tokens(f.key) :: x
  }

  /** The facts of an updated scene: old ones, or cleaned values under the update's own keys. */
  lemma CleanFacts(facts: seq<Fact>, u: SceneUpdate, admits: Admission, secret: set<string>, x: string, f: Fact)
    requires x in secret && x != MARKER_TOKEN && x !in FactTokens(facts)
    requires f in WriteFacts(facts, CleanUpdate(u, secret).writes, admits)
    ensures x !in Tokens(f.value) && (x in Tokens(f.key) ==> x in KeyTokens(u))
  {
    var c := CleanUpdate(u, secret);
    FactsComeFrom(facts, c.writes, admits);
    if f in facts {
      assert forall y | y in FactWords(f) :: y in FactTokens(facts);
    } else {
      var w :| w in c.writes && w.value == Some(f.value) && w.key == f.key;
      var i :| 0 <= i < |c.writes| && c.writes[i] == w;
      assert u.writes[i] in u.writes && u.writes[i].key == f.key;
      RedactionIsExact(u.writes[i].value.value, secret, x);
    }
  }

  lemma CleanReserved(v: Option<Text>, secret: set<string>, x: string)
    requires x in secret && x != MARKER_TOKEN
    ensures CleanValue(v, secret).Some? ==> x !in Tokens(Strip(CleanValue(v, secret).value))
  {
    if v.Some? {
      RedactionIsExact(v.value, secret, x);
      StripIdempotent(Redact(v.value, secret));
    }
  }

  /** A secret word reaches the updated scene through the key of a fact or not at all. */
  lemma SecretEntersByKeyOnly(scene: Scene, u: SceneUpdate, admits: Admission, secret: set<string>, x: string)
    requires x in secret && x != MARKER_TOKEN && x !in SceneTokens(scene)
    ensures x in SceneTokens(UpdateScene(scene, CleanUpdate(u, secret), admits)) <==>
            x in FactKeyTokens(UpdateScene(scene, CleanUpdate(u, secret), admits).facts)
    ensures x in FactKeyTokens(UpdateScene(scene, CleanUpdate(u, secret), admits).facts) ==> x in KeyTokens(u)
  {
    var c := CleanUpdate(u, secret);
    var after := UpdateScene(scene, c, admits);
    CleanReserved(u.location, secret, x);
    CleanReserved(u.timeOfDay, secret, x);
    assert x !in Tokens(after.location) && x !in Tokens(after.timeOfDay);
    forall f | f in after.facts
      ensures x !in Tokens(f.value) && (x in Tokens(f.key) ==> x in KeyTokens(u))
    {
      if f in WriteFacts(scene.facts, c.writes, admits) {
        assert x !in FactTokens(scene.facts);
        CleanFacts(scene.facts, u, admits, secret, x, f);
      } else {
        CleanFacts([], u, admits, secret, x, f);
      }
    }
    if g :| g in after.facts && x in Tokens(g.key) {
      assert x in FactWords(g);
    }
  }

  /** Writing a redacted scene update: what was hidden from a present viewer stays hidden, except a
      word that some fact key now spells out, and then only because the update's keys supplied it. */
  lemma NoLaundering(history: seq<TurnRecord>, cast: Cast, scene: Scene, u: SceneUpdate, admits: Admission, viewer: string, x: string)
    requires viewer in scene.present && viewer in cast && x != MARKER_TOKEN
    requires x in HiddenWhisperTokens(history, viewer, cast, scene)
    ensures var after := UpdateScene(scene, CleanUpdate(u, FactSecrets(history, cast, scene)), admits);
            && (x in HiddenWhisperTokens(history, viewer, cast, after) <==> x !in FactKeyTokens(after.facts))
            && (x in FactKeyTokens(after.facts) ==> x in KeyTokens(u))
  {
    SecretEntersByKeyOnly(scene, u, admits, FactSecrets(history, cast, scene), x);
  }

  /** The same for words that exist only inside thoughts. */
  lemma NoThoughtLaundering(history: seq<TurnRecord>, cast: Cast, scene: Scene, u: SceneUpdate, admits: Admission, x: string)
    requires x in HiddenThoughtTokens(history, cast, scene) && x != MARKER_TOKEN
    ensures var after := UpdateScene(scene, CleanUpdate(u, FactSecrets(history, cast, scene)), admits);
            && (x in HiddenThoughtTokens(history, cast, after) <==> x !in FactKeyTokens(after.facts))
            && (x in FactKeyTokens(after.facts) ==> x in KeyTokens(u))
  {
    SecretEntersByKeyOnly(scene, u, admits, FactSecrets(history, cast, scene), x);
  }

  /** The scene after a redacted update. */
  function Written(history: seq<TurnRecord>, cast: Cast, scene: Scene, u: SceneUpdate, admits: Admission): Scene {
    UpdateScene(scene, CleanUpdate(u, FactSecrets(history, cast, scene)), admits)
  }

  /** For any viewer, present or not: a word hidden from them survives every update with clean keys
      exactly when the guard's own set holds it. A word hidden from absent characters only is not in
      that set, so a location naming it gives it away. */
  lemma SafeExactlyWhenGuarded(history: seq<TurnRecord>, cast: Cast, scene: Scene, admits: Admission, viewer: string, x: string)
    requires x in HiddenWhisperTokens(history, viewer, cast, scene) && x != MARKER_TOKEN
    ensures (forall u | x !in KeyTokens(u) :: x in HiddenWhisperTokens(history, viewer, cast, Written(history, cast, scene, u, admits)))
       <==> x in FactSecrets(history, cast, scene)
  {
    if x in FactSecrets(history, cast, scene) {
      forall u | x !in KeyTokens(u)
        ensures x in HiddenWhisperTokens(history, viewer, cast, Written(history, cast, scene, u, admits))
      {
        SecretEntersByKeyOnly(scene, u, admits, FactSecrets(history, cast, scene), x);
      }
    } else {
      var w := Word(x, 0, false, false, false);
      var u := SceneUpdate(Some([w]), None, []);
      assert Redact([w], FactSecrets(history, cast, scene)) == [w] by {
        assert Marked([w][1..], FactSecrets(history, cast, scene)) == [];
        assert Collapse([w]) == [w];
      }
      assert Strip([w]) == [w];
      assert w in Written(history, cast, scene, u, admits).location;
      assert x !in KeyTokens(u);
    }
  }

  /** A word is in a key of the scene exactly when some key spells it. */
  lemma KeyWords(facts: seq<Fact>, x: string)
    ensures x in FactKeyTokens(facts) <==> exists k :: HasKey(facts, k) && x in Tokens(k)
  {
    if f :| f in facts && x in Tokens(f.key) {
      assert HasKey(facts, f.key);
    }
  }

  /** Some key spelling the word enters the scene for good. */
  ghost predicate SettlesWord(facts: seq<Fact>, writes: seq<FactWrite>, admits: Admission, x: string) {
    exists i | 0 <= i < |writes| :: x in Tokens(writes[i].key) && Settles(facts, writes, admits, i, |writes|)
  }

  lemma SettledWords(facts: seq<Fact>, writes: seq<FactWrite>, admits: Admission, x: string)
    requires DistinctKeys(facts) && x !in FactKeyTokens(facts)
    ensures x in FactKeyTokens(WriteFacts(facts, writes, admits)) <==> SettlesWord(facts, writes, admits, x)
  {
    var after := WriteFacts(facts, writes, admits);
    KeyWords(facts, x);
    KeyWords(after, x);
    if k :| HasKey(after, k) && x in Tokens(k) {
      NewKeySettled(facts, writes, admits, k);
    }
    if i :| 0 <= i < |writes| && x in Tokens(writes[i].key) && Settles(facts, writes, admits, i, |writes|) {
      NewKeySettled(facts, writes, admits, writes[i].key);
    }
  }

  /** The keys of an updated scene spell a word of no old fact exactly when one of the update's keys that
      spells it settles. */
  lemma KeyWordsSettle(scene: Scene, u: SceneUpdate, admits: Admission, secret: set<string>, x: string)
    requires DistinctKeys(scene.facts) && x !in FactTokens(scene.facts)
    ensures var c := CleanUpdate(u, secret);
            x in FactKeyTokens(UpdateScene(scene, c, admits).facts) <==>
            SettlesWord(WrittenOver(scene, c), c.writes, admits, x)
  {
    var base := WrittenOver(scene, CleanUpdate(u, secret));
    assert x !in FactKeyTokens(base) by {
      if f :| f in base && x in Tokens(f.key) { assert x in FactWords(f); }
    }
    SettledWords(base, CleanUpdate(u, secret).writes, admits, x);
  }

  /** Exactly which updates give a hidden word away, in a scene of any size: those with a key spelling it that
      is admitted, gets a value, is not removed again, and never has forty newer keys behind it. */
  lemma LaunderedBySettledKey(history: seq<TurnRecord>, cast: Cast, scene: Scene, u: SceneUpdate, admits: Admission,
                              viewer: string, x: string)
    requires viewer in scene.present && viewer in cast && x != MARKER_TOKEN && DistinctKeys(scene.facts)
    requires x in HiddenWhisperTokens(history, viewer, cast, scene)
    ensures var c := CleanUpdate(u, FactSecrets(history, cast, scene));
            x !in HiddenWhisperTokens(history, viewer, cast, Written(history, cast, scene, u, admits)) <==>
            SettlesWord(WrittenOver(scene, c), c.writes, admits, x)
  {
    NoLaundering(history, cast, scene, u, admits, viewer, x);
    KeyWordsSettle(scene, u, admits, FactSecrets(history, cast, scene), x);
  }

  /** The same for words that exist only inside thoughts. */
  lemma ThoughtLaunderedBySettledKey(history: seq<TurnRecord>, cast: Cast, scene: Scene, u: SceneUpdate, admits: Admission,
                                     x: string)
    requires x in HiddenThoughtTokens(history, cast, scene) && x != MARKER_TOKEN && DistinctKeys(scene.facts)
    ensures var c := CleanUpdate(u, FactSecrets(history, cast, scene));
            x !in HiddenThoughtTokens(history, cast, Written(history, cast, scene, u, admits)) <==>
            SettlesWord(WrittenOver(scene, c), c.writes, admits, x)
  {
    NoThoughtLaundering(history, cast, scene, u, admits, x);
    KeyWordsSettle(scene, u, admits, FactSecrets(history, cast, scene), x);
  }

  /** One admitted key is enough: whatever the scene and its value, the word in it is public afterwards. */
  lemma KeyLaunders(history: seq<TurnRecord>, cast: Cast, scene: Scene, value: Text, admits: Admission, viewer: string, x: string)
    requires x in HiddenWhisperTokens(history, viewer, cast, scene)
    requires admits([Word(x, 0, false, false, false)], scene.facts)
    ensures var u := SceneUpdate(None, None, [FactWrite([Word(x, 0, false, false, false)], Some(value))]);
            x !in HiddenWhisperTokens(history, viewer, cast, Written(history, cast, scene, u, admits))
  {
    var key := [Word(x, 0, false, false, false)];
    var u := SceneUpdate(None, None, [FactWrite(key, Some(value))]);
    var c := CleanUpdate(u, FactSecrets(history, cast, scene));
    var w := c.writes[0];
    assert c.writes == [w] && w.key == key && w.value.Some?;
    assert key[0] in key && x in Tokens(key);
    forall f | f in scene.facts ensures f.key != key {
      assert x !in FactTokens(scene.facts) && forall y | y in FactWords(f) :: y in FactTokens(scene.facts);
    }
    PutNew(scene.facts, key, w.value.value);
    assert [w][..0] == [] && WriteFacts(scene.facts, [], admits) == scene.facts;
    var put := scene.facts + [Fact(key, w.value.value)];
    var after := WriteFacts(scene.facts, c.writes, admits);
    assert after == Evicted(put) && after[|after| - 1] == put[|put| - 1];
    var f := Fact(key, w.value.value);
    assert f in after && x in FactWords(f);
  }

  // ---- whole runs ----------------------------------------------------------

  /** A beat: the records added since the last one, then a scene update, cleaned against the history and
      scene of that moment. */
  datatype Beat = Beat(added: seq<TurnRecord>, update: SceneUpdate)

  function HistoryAfter(history: seq<TurnRecord>, bs: seq<Beat>): seq<TurnRecord> {
    if bs == [] then history else HistoryAfter(history, bs[..|bs| - 1]) + bs[|bs| - 1].added
  }

  function SceneAfter(history: seq<TurnRecord>, cast: Cast, scene: Scene, bs: seq<Beat>, admits: Admission): (r: Scene)
    ensures r.present == scene.present
  {
    if bs == [] then scene
    else
      var n := |bs| - 1;
      Written(HistoryAfter(history, bs), cast, SceneAfter(history, cast, scene, bs[..n], admits), bs[n].update, admits)
  }

  lemma HiddenFromMore(history: seq<TurnRecord>, added: seq<TurnRecord>, viewer: string, cast: Cast, scene: Scene, x: string)
    requires x in HiddenWhisperTokens(history, viewer, cast, scene)
    requires forall r | r in added && Knowable(r, viewer) :: x !in Tokens(r.content)
    ensures x in HiddenWhisperTokens(history + added, viewer, cast, scene)
  {
    var all := history + added;
    var rec :| rec in history && HiddenFrom(rec, viewer) && x in Payload(rec.content);
    assert rec in all;
  }

  lemma ThoughtFromMore(history: seq<TurnRecord>, added: seq<TurnRecord>, cast: Cast, scene: Scene, x: string)
    requires x in HiddenThoughtTokens(history, cast, scene)
    requires forall r | r in added && r.kind != Thought && r.kind != Narration :: x !in Tokens(r.content)
    ensures x in HiddenThoughtTokens(history + added, cast, scene)
  {
    var all := history + added;
    var rec :| rec in history && rec.kind == Thought && x in Payload(rec.content);
    assert rec in all;
  }

  /** No run of beats launders a whispered word: what was hidden from a present viewer stays hidden while no
      fact key contains it and nothing the viewer may know voices it. */
  lemma {:induction false} NoLaunderingEver(history: seq<TurnRecord>, cast: Cast, scene: Scene, bs: seq<Beat>,
                                            admits: Admission, viewer: string, x: string)
    requires viewer in scene.present && viewer in cast && x != MARKER_TOKEN
    requires x in HiddenWhisperTokens(history, viewer, cast, scene)
    requires forall b | b in bs :: x !in KeyTokens(b.update)
    requires forall b, r | b in bs && r in b.added && Knowable(r, viewer) :: x !in Tokens(r.content)
    ensures x in HiddenWhisperTokens(HistoryAfter(history, bs), viewer, cast, SceneAfter(history, cast, scene, bs, admits))
  {
    if bs != [] {
      var n := |bs| - 1;
      assert bs[n] in bs;
      NoLaunderingEver(history, cast, scene, bs[..n], admits, viewer, x);
      var before := SceneAfter(history, cast, scene, bs[..n], admits);
      HiddenFromMore(HistoryAfter(history, bs[..n]), bs[n].added, viewer, cast, before, x);
      NoLaundering(HistoryAfter(history, bs), cast, before, bs[n].update, admits, viewer, x);
    }
  }

  /** The same for a word that exists only in thoughts, while nobody says or acts it. */
  lemma {:induction false} NoThoughtLaunderingEver(history: seq<TurnRecord>, cast: Cast, scene: Scene, bs: seq<Beat>,
                                                   admits: Admission, x: string)
    requires x in HiddenThoughtTokens(history, cast, scene) && x != MARKER_TOKEN
    requires forall b | b in bs :: x !in KeyTokens(b.update)
    requires forall b, r | b in bs && r in b.added && r.kind != Thought && r.kind != Narration :: x !in Tokens(r.content)
    ensures x in HiddenThoughtTokens(HistoryAfter(history, bs), cast, SceneAfter(history, cast, scene, bs, admits))
  {
    if bs != [] {
      var n := |bs| - 1;
      assert bs[n] in bs;
      NoThoughtLaunderingEver(history, cast, scene, bs[..n], admits, x);
      var before := SceneAfter(history, cast, scene, bs[..n], admits);
      ThoughtFromMore(HistoryAfter(history, bs[..n]), bs[n].added, cast, before, x);
      NoThoughtLaundering(HistoryAfter(history, bs), cast, before, bs[n].update, admits, x);
    }
  }
}
