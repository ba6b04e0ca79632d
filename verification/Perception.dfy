/** Who perceives whom: the zone graph, record audiences and the Director's typed events. */
module Perception {
  import opened Wrappers
  import opened Text
  import opened Model
  import Ordering

  /** `can_perceive`. */
  predicate CanPerceive(scene: Scene, viewer: string, subject: string) {
    || |scene.zones| == 0
    || viewer !in scene.positions
    || subject !in scene.positions
    || scene.positions[viewer] == scene.positions[subject]
    || (scene.positions[viewer] in scene.zones
        && scene.positions[subject] in scene.zones[scene.positions[viewer]])
  }

  function EligibleWitnesses(scene: Scene, cast: Cast, subject: string): set<string> {
    set id | id in scene.present && id in cast && id != subject && CanPerceive(scene, id, subject)
  }

  function PresentOthers(scene: Scene, cast: Cast, subject: string): set<string> {
    set id | id in scene.present && id in cast && id != subject
  }

  // ---- audiences -----------------------------------------------------------

  datatype Audience = Audience(ids: Option<seq<string>>, origin: Origin)

  predicate Spatial(kind: ContentType) {
    kind == Speech || kind == Action
  }

  /** The audience `_append_history` records. `authority` is an explicit origin: the caller's audience
      is then taken as it stands. */
  ghost function AudienceOf(scene: Scene, cast: Cast, controlled: string, speaker: string, kind: ContentType,
                            supplied: Option<seq<string>>, authority: Option<Origin>): Audience
  {
    var origin := if supplied.Some? then Whisper else Zone;
    var subject := SubjectOf(speaker, controlled);
    if authority.Some? then Audience(supplied, authority.value)
    else if |scene.zones| == 0 || !Spatial(kind) || subject !in cast then Audience(supplied, origin)
    else
      var eligible := EligibleWitnesses(scene, cast, subject);
      if supplied.Some? then
        Audience(Some(Ordering.Sorted((set id | id in supplied.value) * (eligible + {subject}))), origin)
      else if eligible != PresentOthers(scene, cast, subject) then
        Audience(Some(Ordering.Sorted(eligible)), origin)
      else Audience(None, origin)
  }

  /** A present character other than the subject sees a public line exactly when the zone graph lets
      them perceive the subject, and a whispered one exactly when they were addressed as well. */
  lemma AudienceIsPhysical(rec: TurnRecord, scene: Scene, cast: Cast, controlled: string,
                           supplied: Option<seq<string>>, viewer: string)
    requires Spatial(rec.kind) && SubjectOf(rec.speaker, controlled) in cast && PLAYER !in cast
    requires var a := AudienceOf(scene, cast, controlled, rec.speaker, rec.kind, supplied, None);
             rec.audience == a.ids && rec.origin == a.origin
    requires viewer in scene.present && viewer in cast && viewer != SubjectOf(rec.speaker, controlled)
    ensures VisibleTo(rec, viewer) <==>
      CanPerceive(scene, viewer, SubjectOf(rec.speaker, controlled))
      && (supplied.Some? ==> viewer in supplied.value)
    ensures rec.origin == Whisper <==> supplied.Some?
  {
    var subject := SubjectOf(rec.speaker, controlled);
    var eligible := EligibleWitnesses(scene, cast, subject);
    if |scene.zones| > 0 {
      if supplied.Some? {
        Ordering.SortedIsSorted((set id | id in supplied.value) * (eligible + {subject}));
      } else {
        Ordering.SortedIsSorted(eligible);
        assert viewer in PresentOthers(scene, cast, subject);
      }
    }
  }

  /** With an explicit origin the caller's audience is the last word: whatever the zones say, exactly its members
      and the speaker see the record, or everybody where none was given. */
  lemma ExplicitAudienceStands(rec: TurnRecord, scene: Scene, cast: Cast, controlled: string,
                               supplied: Option<seq<string>>, origin: Origin, viewer: string)
    requires var a := AudienceOf(scene, cast, controlled, rec.speaker, rec.kind, supplied, Some(origin));
             rec.audience == a.ids && rec.origin == a.origin
    ensures rec.origin == origin
    ensures VisibleTo(rec, viewer) <==> supplied.None? || viewer in supplied.value || viewer == rec.speaker
  {
  }

  /** Thoughts and narration are not heard through zones: an audience given with them stands, and without one
      they are for everybody. */
  lemma UnspokenAudienceStands(rec: TurnRecord, scene: Scene, cast: Cast, controlled: string,
                               supplied: Option<seq<string>>, viewer: string)
    requires rec.kind == Thought || rec.kind == Narration
    requires var a := AudienceOf(scene, cast, controlled, rec.speaker, rec.kind, supplied, None);
             rec.audience == a.ids && rec.origin == a.origin
    ensures rec.origin == Whisper <==> supplied.Some?
    ensures VisibleTo(rec, viewer) <==> supplied.None? || viewer in supplied.value || viewer == rec.speaker
  {
  }

  /** On a stage with zones a spoken or acted line reaches, of those addressed, the speaker and whoever present
      perceives them; a line for all stays public exactly when everybody present perceives the speaker, and is
      otherwise for those who do. */
  lemma ComputedAudienceExact(scene: Scene, cast: Cast, controlled: string, speaker: string, kind: ContentType,
                              supplied: Option<seq<string>>, viewer: string)
    requires |scene.zones| > 0 && Spatial(kind) && SubjectOf(speaker, controlled) in cast
    ensures var a := AudienceOf(scene, cast, controlled, speaker, kind, supplied, None);
            var subject := SubjectOf(speaker, controlled);
            var hears := viewer in scene.present && viewer in cast && viewer != subject && CanPerceive(scene, viewer, subject);
            && (supplied.Some? ==> a.ids.Some?)
            && (supplied.Some? ==> (viewer in a.ids.value <==> viewer in supplied.value && (viewer == subject || hears)))
            && (supplied.None? ==> (a.ids.None? <==>
                  forall id | id in scene.present && id in cast && id != subject :: CanPerceive(scene, id, subject)))
            && (supplied.None? && a.ids.Some? ==> (viewer in a.ids.value <==> hears))
  {
    var subject := SubjectOf(speaker, controlled);
    var eligible := EligibleWitnesses(scene, cast, subject);
    if supplied.Some? {
      Ordering.SortedIsSorted((set id | id in supplied.value) * (eligible + {subject}));
    } else {
      Ordering.SortedIsSorted(eligible);
      assert eligible == PresentOthers(scene, cast, subject) <==>
             forall id | id in PresentOthers(scene, cast, subject) :: CanPerceive(scene, id, subject);
    }
  }

  /** Without zones everybody perceives everybody, and so do the unplaced; between two places it takes the same
      zone, or a link from the listener's zone to the subject's: one the other way is not enough. */
  lemma PerceptionIsDirected(scene: Scene, viewer: string, subject: string)
    ensures scene.zones == map[] || viewer !in scene.positions || subject !in scene.positions ==>
              CanPerceive(scene, viewer, subject)
    ensures scene.zones != map[] && viewer in scene.positions && subject in scene.positions ==>
              var here, there := scene.positions[viewer], scene.positions[subject];
              CanPerceive(scene, viewer, subject) <==> here == there || (here in scene.zones && there in scene.zones[here])
  {
    assert scene.zones == map[] <==> |scene.zones| == 0;
  }

  // ---- typed events --------------------------------------------------------

  datatype Event = Event(kind: string, subject: string, content: Text, witnesses: seq<string>)

  const EVENT_KINDS: seq<string> :=
    ["observation", "audible_speech", "identity_claim", "physical_outcome", "scene_change"]
  const MAX_EVENTS: nat := 6

  /** A proposed event; None stands for a missing field or one of the wrong type. */
  datatype Proposal =
    | NotAnObject
    | Proposal(kind: Option<string>, subject: Option<string>, content: Option<Text>, witnesses: Option<seq<Option<string>>>)

  function Allowed(scene: Scene, cast: Cast, subject: string): set<string> {
    if subject == NARRATOR then set id | id in scene.present && id in cast
    else EligibleWitnesses(scene, cast, subject)
  }

  /** First occurrences of the admitted names, in order. */
  function Narrowed(proposed: seq<Option<string>>, allowed: set<string>): seq<string> {
    if proposed == [] then []
    else
      var n := |proposed| - 1;
      var earlier := Narrowed(proposed[..n], allowed);
      var p := proposed[n];
      if p.Some? && p.value in allowed && p.value !in earlier then earlier + [p.value] else earlier
  }

  function ValidateOne(p: Proposal, scene: Scene, cast: Cast): Option<Event> {
    if p.NotAnObject? || p.kind.None? || p.kind.value !in EVENT_KINDS then None
    else if p.content.None? || Strip(p.content.value) == [] then None
    else if p.subject.None? || (p.subject.value !in scene.present && p.subject.value != NARRATOR) then None
    else if p.witnesses.None? then None
    else Some(Event(p.kind.value, p.subject.value, Strip(p.content.value),
                    Narrowed(p.witnesses.value, Allowed(scene, cast, p.subject.value))))
  }

  function Accepted(ps: seq<Proposal>, scene: Scene, cast: Cast): seq<Event> {
    if ps == [] then []
    else
      var n := |ps| - 1;
      var one := ValidateOne(ps[n], scene, cast);
      Accepted(ps[..n], scene, cast) + (if one.Some? then [one.value] else [])
  }

  function Capped<T>(s: seq<T>, n: nat): seq<T> {
    if |s| <= n then s else s[..n]
  }

  method ValidateEvents(raw: Option<seq<Proposal>>, scene: Scene, cast: Cast) returns (events: seq<Event>)
    ensures events == if raw.None? then [] else Capped(Accepted(raw.value, scene, cast), 6)
  {
    if raw.None? { return []; }
    events := [];
    for i := 0 to |raw.value|
      invariant events == Accepted(raw.value[..i], scene, cast) && |events| < MAX_EVENTS
    {
      assert raw.value[..i + 1][..i] == raw.value[..i];
      var one := ValidateOne(raw.value[i], scene, cast);
      if one.Some? {
        events := events + [one.value];
        if |events| >= MAX_EVENTS {
          AcceptedGrows(raw.value, i + 1, scene, cast);
          return;
        }
      }
    }
    assert raw.value[..|raw.value|] == raw.value;
  }

  lemma {:induction false} AcceptedGrows(ps: seq<Proposal>, i: nat, scene: Scene, cast: Cast)
    requires i <= |ps|
    ensures Accepted(ps[..i], scene, cast) <= Accepted(ps, scene, cast)
  {
    if i < |ps| {
      var n := |ps| - 1;
      assert ps[..n][..i] == ps[..i];
      AcceptedGrows(ps[..n], i, scene, cast);
    } else {
      assert ps[..i] == ps;
    }
  }

  lemma {:induction false} NarrowedExact(proposed: seq<Option<string>>, allowed: set<string>)
    ensures forall id :: id in Narrowed(proposed, allowed) <==> Some(id) in proposed && id in allowed
    ensures forall i, j | 0 <= i < j < |Narrowed(proposed, allowed)| ::
              Narrowed(proposed, allowed)[i] != Narrowed(proposed, allowed)[j]
  {
    if proposed != [] {
      var n := |proposed| - 1;
      assert proposed == proposed[..n] + [proposed[n]];
      NarrowedExact(proposed[..n], allowed);
    }
  }

  /** Where each accepted event comes from: increasing positions, and nothing acceptable in between. */
  lemma {:induction false} AcceptedInOrder(ps: seq<Proposal>, scene: Scene, cast: Cast) returns (at: seq<nat>)
    ensures |at| == |Accepted(ps, scene, cast)|
    ensures forall k | 0 <= k < |at| ::
              at[k] < |ps| && ValidateOne(ps[at[k]], scene, cast) == Some(Accepted(ps, scene, cast)[k])
    ensures forall k, l | 0 <= k < l < |at| :: at[k] < at[l]
    ensures forall i | 0 <= i < |ps| && ValidateOne(ps[i], scene, cast).Some? :: i in at
  {
    at := [];
    if ps != [] {
      var n := |ps| - 1;
      at := AcceptedInOrder(ps[..n], scene, cast);
      if ValidateOne(ps[n], scene, cast).Some? {
        at := at + [n];
      }
    }
  }

  /** What every event that passed validation satisfies. */
  predicate Clamped(e: Event, scene: Scene, cast: Cast) {
    && e.kind in EVENT_KINDS
    && e.content != [] && Strip(e.content) == e.content
    && (e.subject in scene.present || e.subject == NARRATOR)
    && (forall id | id in e.witnesses :: id in Allowed(scene, cast, e.subject))
    && (forall i, j | 0 <= i < j < |e.witnesses| :: e.witnesses[i] != e.witnesses[j])
  }

  lemma ValidatedIsClamped(p: Proposal, scene: Scene, cast: Cast)
    requires ValidateOne(p, scene, cast).Some?
    ensures var e := ValidateOne(p, scene, cast).value;
            && Clamped(e, scene, cast)
            && forall id :: id in e.witnesses <==>
                 && Some(id) in p.witnesses.value && id in scene.present && id in cast
                 && (e.subject == NARRATOR || (id != e.subject && CanPerceive(scene, id, e.subject)))
  {
    StripIdempotent(p.content.value);
    NarrowedExact(p.witnesses.value, Allowed(scene, cast, p.subject.value));
  }

  /** A proposal passes exactly when it is an object with a known kind, a text that is not blank, a subject who
      is present or the narrator, and a list of witnesses; kind and subject come through as they are, and the
      text without the blanks around it. */
  lemma AcceptanceExact(p: Proposal, scene: Scene, cast: Cast)
    ensures ValidateOne(p, scene, cast).Some? <==>
              && p.Proposal? && p.kind.Some? && p.subject.Some? && p.content.Some? && p.witnesses.Some?
              && p.kind.value in {"observation", "audible_speech", "identity_claim", "physical_outcome", "scene_change"}
              && !Blank(p.content.value)
              && (p.subject.value in scene.present || p.subject.value == NARRATOR)
    ensures ValidateOne(p, scene, cast).Some? ==>
              var e := ValidateOne(p, scene, cast).value;
              && e.kind == p.kind.value && e.subject == p.subject.value
              && exists before, after :: Blank(before) && Blank(after) && p.content.value == before + e.content + after
  {
    if p.Proposal? && p.content.Some? {
      var before, after := StripExact(p.content.value);
      StripEmpties(p.content.value);
    }
  }

  /** The witnesses stand in the order in which the proposal first names them. */
  lemma {:induction false} NarrowedGrows(proposed: seq<Option<string>>, i: nat, allowed: set<string>)
    requires i <= |proposed|
    ensures Narrowed(proposed[..i], allowed) <= Narrowed(proposed, allowed)
  {
    if i < |proposed| {
      var n := |proposed| - 1;
      assert proposed[..n][..i] == proposed[..i];
      NarrowedGrows(proposed[..n], i, allowed);
    } else {
      assert proposed[..i] == proposed;
    }
  }

  /** An event proposed again. */
  function Reproposed(e: Event): Proposal {
    Proposal(Some(e.kind), Some(e.subject), Some(e.content), Some(seq(|e.witnesses|, i requires 0 <= i < |e.witnesses| => Some(e.witnesses[i]))))
  }

  lemma {:induction false} NarrowedIdentity(ids: seq<string>, proposed: seq<Option<string>>, allowed: set<string>)
    requires |proposed| == |ids| && forall i | 0 <= i < |ids| :: proposed[i] == Some(ids[i])
    requires forall id | id in ids :: id in allowed
    requires forall i, j | 0 <= i < j < |ids| :: ids[i] != ids[j]
    ensures Narrowed(proposed, allowed) == ids
  {
    if ids != [] {
      var n := |ids| - 1;
      assert ids[n] in ids && ids == ids[..n] + [ids[n]];
      NarrowedIdentity(ids[..n], proposed[..n], allowed);
    }
  }

  lemma ReproposedUnchanged(e: Event, scene: Scene, cast: Cast)
    requires Clamped(e, scene, cast)
    ensures ValidateOne(Reproposed(e), scene, cast) == Some(e)
  {
    NarrowedIdentity(e.witnesses, Reproposed(e).witnesses.value, Allowed(scene, cast, e.subject));
  }

  lemma {:induction false} AcceptedAllClamped(es: seq<Event>, ps: seq<Proposal>, scene: Scene, cast: Cast)
    requires |ps| == |es| && forall i | 0 <= i < |es| :: ValidateOne(ps[i], scene, cast) == Some(es[i])
    ensures Accepted(ps, scene, cast) == es
  {
    if es != [] {
      var n := |es| - 1;
      AcceptedAllClamped(es[..n], ps[..n], scene, cast);
      assert es == es[..n] + [es[n]];
    }
  }

  /** The clamp: at most six events, each a narrowed proposal in the proposed order, and clamping the
      result again changes nothing. */
  lemma ValidationClamps(ps: seq<Proposal>, scene: Scene, cast: Cast)
    ensures var events := Capped(Accepted(ps, scene, cast), MAX_EVENTS);
            && |events| <= 6
            && (forall e | e in events :: Clamped(e, scene, cast))
            && Capped(Accepted(seq(|events|, i requires 0 <= i < |events| => Reproposed(events[i])), scene, cast),
                      MAX_EVENTS) == events
  {
    var events := Capped(Accepted(ps, scene, cast), MAX_EVENTS);
    var at := AcceptedInOrder(ps, scene, cast);
    forall k | 0 <= k < |events| ensures Clamped(events[k], scene, cast) {
      assert events[k] == Accepted(ps, scene, cast)[k];
      ValidatedIsClamped(ps[at[k]], scene, cast);
    }
    forall k | 0 <= k < |events| ensures ValidateOne(Reproposed(events[k]), scene, cast) == Some(events[k]) {
      ReproposedUnchanged(events[k], scene, cast);
    }
    AcceptedAllClamped(events, seq(|events|, i requires 0 <= i < |events| => Reproposed(events[i])), scene, cast);
  }

  /** The selection of `render_events_for_viewer`. */
  function Rendered(events: seq<Event>, viewer: string): seq<Event> {
    if events == [] then []
    else
      var n := |events| - 1;
      Rendered(events[..n], viewer)
      + (if viewer in events[n].witnesses || events[n].subject == viewer then [events[n]] else [])
  }

  /** What a viewer is shown is exactly what they witness or are the subject of. */
  lemma {:induction false} RenderedExact(events: seq<Event>, viewer: string)
    ensures forall e :: e in Rendered(events, viewer) <==> e in events && (viewer in e.witnesses || viewer == e.subject)
  {
    if events != [] {
      var n := |events| - 1;
      assert events == events[..n] + [events[n]];
      RenderedExact(events[..n], viewer);
    }
  }

  /** Later events are shown after earlier ones, each as often as it happened. */
  lemma {:induction false} RenderedInOrder(earlier: seq<Event>, later: seq<Event>, viewer: string)
    ensures Rendered(earlier + later, viewer) == Rendered(earlier, viewer) + Rendered(later, viewer)
    decreases |later|
  {
    if later == [] {
      assert earlier + later == earlier;
    } else {
      var n := |later| - 1;
      var all := earlier + later;
      assert all[..|all| - 1] == earlier + later[..n] && all[|all| - 1] == later[n];
      RenderedInOrder(earlier, later[..n], viewer);
    }
  }

  lemma RenderedIsPerceived(events: seq<Event>, scene: Scene, cast: Cast, viewer: string, e: Event)
    requires forall x | x in events :: Clamped(x, scene, cast)
    requires e in Rendered(events, viewer)
    ensures e in events
    ensures e.subject == viewer || (viewer in scene.present && (e.subject == NARRATOR || CanPerceive(scene, viewer, e.subject)))
  {
    RenderedExact(events, viewer);
  }

  // ---- speech the Director voices ------------------------------------------

  /** Who hears a voiced line: everybody, when the witnesses leave out no present character, else exactly the
      witnesses of the cast. */
  ghost function HeardBy(e: Event, scene: Scene, cast: Cast): Option<seq<string>> {
    var witnesses := set id | id in e.witnesses && id in cast;
    if PresentOthers(scene, cast, e.subject) <= witnesses then None else Some(Ordering.Sorted(witnesses))
  }

  /** A validated line is heard, among the present characters, by exactly its witnesses and its subject,
      whatever the zone graph says when it is recorded; and it is never a whisper. */
  lemma VoicedLineReachesWitnesses(e: Event, scene: Scene, cast: Cast, controlled: string, rec: TurnRecord, viewer: string)
    requires Clamped(e, scene, cast) && e.subject in cast && rec.speaker == e.subject
    requires var a := AudienceOf(scene, cast, controlled, e.subject, Speech, HeardBy(e, scene, cast), Some(Zone));
             rec.audience == a.ids && rec.origin == a.origin
    requires viewer in scene.present && viewer in cast
    ensures VisibleTo(rec, viewer) <==> viewer in e.witnesses || viewer == e.subject
    ensures rec.origin == Zone
  {
    var witnesses := set id | id in e.witnesses && id in cast;
    Ordering.SortedIsSorted(witnesses);
    if viewer != e.subject { assert viewer in PresentOthers(scene, cast, e.subject); }
  }
}
