/** Zone moves and links: `narrate`'s clamps and `_apply_canon`. */
module Canon {
  import opened Wrappers
  import opened Text
  import opened Model
  import opened Perception
  import opened SceneFacts
  import Ordering

  datatype Move = Move(mover: string, zone: string)
  datatype Link = Link(zone: string, audible: seq<string>)

  type Zones = map<string, seq<string>>

  // ---- narrate's clamps ----------------------------------------------------

  const MAX_SPEAKERS: nat := 3

  /** The queue before its cap: entries up to "Narrator", valid, not excluded, first occurrence only. */
  function QueueOf(raw: seq<string>, valid: set<string>, exclude: Option<string>): (q: seq<string>)
    ensures forall id | id in q :: id in raw && id in valid && id != NARRATOR && Some(id) != exclude
    ensures forall i, j | 0 <= i < j < |q| :: q[i] != q[j]
  {
    if raw == [] || NARRATOR in raw[..|raw| - 1] then
      if raw == [] then [] else QueueOf(raw[..|raw| - 1], valid, exclude)
    else
      var n := |raw| - 1;
      var q := QueueOf(raw[..n], valid, exclude);
      if raw[n] != NARRATOR && raw[n] in valid && Some(raw[n]) != exclude && raw[n] !in q then q + [raw[n]] else q
  }

  /** `next_speakers` as `narrate` returns it; `raw` is None when the reply has no list there. */
  method NormalizeQueue(raw: Option<seq<string>>, presentIds: set<string>, forced: Option<string>, exclude: Option<string>)
    returns (queue: seq<string>)
    ensures forced.Some? && (forced.value in presentIds || forced.value == NARRATOR) ==> queue == [forced.value]
    ensures !(forced.Some? && (forced.value in presentIds || forced.value == NARRATOR)) ==>
      var q := Capped(QueueOf(if raw.Some? then raw.value else [], presentIds + {NARRATOR}, exclude), 3);
      queue == if q == [] then [NARRATOR] else q
    ensures 1 <= |queue| <= 3
    ensures forall i, j | 0 <= i < j < |queue| :: queue[i] != queue[j]
  {
    var valid := presentIds + {NARRATOR};
    if forced.Some? && forced.value in valid { return [forced.value]; }
    var entries := if raw.Some? then raw.value else [];
    queue := [];
    var i := 0;
    while i < |entries| && entries[i] != NARRATOR
      invariant 0 <= i <= |entries|
      invariant NARRATOR !in entries[..i]
      invariant queue == QueueOf(entries[..i], valid, exclude)
    {
      assert entries[..i + 1][..i] == entries[..i];
      if entries[i] in valid && Some(entries[i]) != exclude && entries[i] !in queue {
        queue := queue + [entries[i]];
      }
      i := i + 1;
    }
    QueueStops(entries, i, valid, exclude);
    queue := if |queue| > MAX_SPEAKERS then queue[..MAX_SPEAKERS] else queue;
    if queue == [] { queue := [NARRATOR]; }
  }

  lemma {:induction false} QueueStops(raw: seq<string>, i: nat, valid: set<string>, exclude: Option<string>)
    requires i <= |raw| && NARRATOR !in raw[..i] && (i < |raw| ==> raw[i] == NARRATOR)
    ensures QueueOf(raw, valid, exclude) == QueueOf(raw[..i], valid, exclude)
    decreases |raw|
  {
    if i < |raw| {
      var n := |raw| - 1;
      assert raw[..n][..i] == raw[..i];
      if i < n {
        assert raw[..n][i] == NARRATOR;
        QueueStops(raw[..n], i, valid, exclude);
      }
    } else {
      assert raw[..i] == raw;
    }
  }

  /** The entries before the first "Narrator". */
  function BeforeNarrator(raw: seq<string>): seq<string> {
    if raw == [] || raw[0] == NARRATOR then [] else [raw[0]] + BeforeNarrator(raw[1..])
  }

  lemma {:induction false} BeforeNarratorSnoc(raw: seq<string>, last: string)
    ensures BeforeNarrator(raw + [last]) ==
      if NARRATOR in raw || last == NARRATOR then BeforeNarrator(raw) else BeforeNarrator(raw) + [last]
  {
    if raw == [] {
      assert raw + [last] == [last] && [last][1..] == [];
    } else {
      assert (raw + [last])[1..] == raw[1..] + [last];
      BeforeNarratorSnoc(raw[1..], last);
    }
  }

  /** The queue holds everyone valid that was named before "Narrator", and nobody else. */
  lemma {:induction false} QueueExact(raw: seq<string>, valid: set<string>, exclude: Option<string>)
    ensures forall id :: id in QueueOf(raw, valid, exclude) <==>
              id in BeforeNarrator(raw) && id in valid && Some(id) != exclude
  {
    if raw != [] {
      var n := |raw| - 1;
      assert raw == raw[..n] + [raw[n]];
      BeforeNarratorSnoc(raw[..n], raw[n]);
      QueueExact(raw[..n], valid, exclude);
    }
  }

  /** Where `x` is first named. */
  function FirstAt(xs: seq<string>, x: string): (n: nat)
    requires x in xs
    ensures n < |xs| && xs[n] == x
  {
    if xs[0] == x then 0 else 1 + FirstAt(xs[1..], x)
  }

  /** The names of `r` in the order in which `xs` first mentions them, none twice. */
  ghost predicate InOrderOf(r: seq<string>, xs: seq<string>) {
    && (forall x | x in r :: x in xs)
    && (forall i, j | 0 <= i < j < |r| :: FirstAt(xs, r[i]) < FirstAt(xs, r[j]))
  }

  lemma {:induction false} FirstAtMore(xs: seq<string>, last: string, x: string)
    requires x in xs + [last]
    ensures FirstAt(xs + [last], x) == if x in xs then FirstAt(xs, x) else |xs|
  {
    if xs == [] {
      assert xs + [last] == [last];
    } else if xs[0] != x {
      assert (xs + [last])[1..] == xs[1..] + [last];
      FirstAtMore(xs[1..], last, x);
    }
  }

  /** A list in order of mention stays so when the text behind it grows, and may take the new mention in. */
  lemma InOrderMore(r: seq<string>, xs: seq<string>, last: string)
    requires InOrderOf(r, xs)
    ensures InOrderOf(r, xs + [last])
    ensures last !in xs ==> InOrderOf(r + [last], xs + [last])
  {
    forall x | x in r ensures FirstAt(xs + [last], x) == FirstAt(xs, x) { FirstAtMore(xs, last, x); }
    FirstAtMore(xs, last, last);
  }

  /** The queue keeps the order of the reply. */
  lemma {:induction false} QueueInOrder(raw: seq<string>, valid: set<string>, exclude: Option<string>)
    ensures InOrderOf(QueueOf(raw, valid, exclude), raw)
  {
    if raw != [] {
      var n := |raw| - 1;
      QueueInOrder(raw[..n], valid, exclude);
      assert raw == raw[..n] + [raw[n]];
      InOrderMore(QueueOf(raw[..n], valid, exclude), raw[..n], raw[n]);
      QueueExact(raw[..n], valid, exclude);
      if NARRATOR !in raw[..n] { NobodyCutOff(raw[..n]); }
    }
  }

  lemma {:induction false} NobodyCutOff(raw: seq<string>)
    requires NARRATOR !in raw
    ensures BeforeNarrator(raw) == raw
  {
    if raw != [] { NobodyCutOff(raw[1..]); }
  }

  function Deduped(xs: seq<string>): (r: seq<string>)
    ensures forall x :: x in r <==> x in xs
    ensures forall i, j | 0 <= i < j < |r| :: r[i] != r[j]
  {
    if xs == [] then []
    else
      var n := |xs| - 1;
      var r := Deduped(xs[..n]);
      assert forall x :: x in xs <==> x in xs[..n] || x == xs[n];
      if xs[n] in r then r else r + [xs[n]]
  }

  /** The entries that name a zone, in order. */
  function Known(xs: seq<string>, zones: set<string>): (r: seq<string>)
    ensures forall x :: x in r <==> x in xs && x in zones
  {
    if xs == [] then [] else (if xs[0] in zones then [xs[0]] else []) + Known(xs[1..], zones)
  }

  /** `zone_link_updates` as `narrate` returns them: known zones only, never a self edge. */
  function NormalizeLinks(raw: seq<Link>, zones: Zones): (links: seq<Link>)
    ensures forall l | l in links :: l.zone in zones && forall o | o in l.audible :: o in zones && o != l.zone
    ensures |zones| == 0 ==> links == []
  {
    if raw == [] then []
    else
      (if raw[0].zone in zones then [Link(raw[0].zone, Known(Deduped(raw[0].audible), zones.Keys - {raw[0].zone}))] else [])
      + NormalizeLinks(raw[1..], zones)
  }

  // ---- _apply_canon --------------------------------------------------------

  predicate Moves(moves: seq<Move>, id: string) {
    exists m | m in moves :: m.mover == id
  }

  predicate MovesOfPresent(moves: seq<Move>, scene: Scene, cast: Cast) {
    && (forall m | m in moves :: m.mover in scene.present && m.mover in cast)
    && (forall i, j | 0 <= i < j < |moves| :: moves[i].mover != moves[j].mover)
  }

  /** A location change next to zone moves stands only if every present character moved. */
  function ClampUpdate(scene: Scene, cast: Cast, u: SceneUpdate, moves: seq<Move>): SceneUpdate {
    if moves != [] && exists id | id in scene.present && id in cast :: !Moves(moves, id)
    then u.(location := None)
    else u
  }

  function NewZones(scene: Scene, moves: seq<Move>): seq<string> {
    if moves == [] then []
    else
      var n := |moves| - 1;
      NewZones(scene, moves[..n]) + (if moves[n].zone in scene.zones then [] else [moves[n].zone])
  }

  /** First split of a stage without zones: the stage becomes a zone that holds everyone. */
  function NameStage(scene: Scene, cast: Cast, stage: string): Scene {
    scene.(zones := map[stage := []],
           positions := map id | id in scene.positions.Keys + set p | p in scene.present && p in cast :: p ::
             if id in scene.present && id in cast then stage else scene.positions[id])
  }

  /** Existing zones that the movers into `zone` stand in. */
  function Origins(scene: Scene, moves: seq<Move>, zone: string): set<string> {
    set m | m in moves && m.zone == zone && m.mover in scene.positions
            && scene.positions[m.mover] != "" && scene.positions[m.mover] in scene.zones :: scene.positions[m.mover]
  }

  /** One turn of `_open_new_zones`: the zone hears its movers' origins and they hear it. */
  ghost function OpenZone(scene: Scene, moves: seq<Move>, zone: string): Scene {
    if zone in scene.zones then scene
    else
      var from := Origins(scene, moves, zone);
      scene.(zones := map z | z in scene.zones.Keys + {zone} ::
        if z == zone then Ordering.Sorted(from)
        else if z in from && zone !in scene.zones[z] then scene.zones[z] + [zone]
        else scene.zones[z])
  }

  ghost function OpenZones(scene: Scene, moves: seq<Move>, news: seq<string>): Scene {
    if news == [] then scene
    else OpenZone(OpenZones(scene, moves, news[..|news| - 1]), moves, news[|news| - 1])
  }

  function Placed(positions: map<string, string>, moves: seq<Move>): map<string, string> {
    if moves == [] then positions
    else Placed(positions, moves[..|moves| - 1])[moves[|moves| - 1].mover := moves[|moves| - 1].zone]
  }

  function Linked(zones: Zones, links: seq<Link>): Zones {
    if links == [] then zones
    else
      var n := |links| - 1;
      var before := Linked(zones, links[..n]);
      if links[n].zone in before then before[links[n].zone := Known(links[n].audible, before.Keys)] else before
  }

  /** The scene the zone part starts from: updated, and named if this is the first split. */
  function Staged(scene: Scene, cast: Cast, moves: seq<Move>, stage: string): Scene {
    if NewZones(scene, moves) != [] && |scene.zones| == 0 then NameStage(scene, cast, stage) else scene
  }

  ghost function Rezoned(scene: Scene, cast: Cast, moves: seq<Move>, links: seq<Link>, stage: string): Scene {
    var split := OpenZones(Staged(scene, cast, moves, stage), moves, NewZones(scene, moves));
    split.(positions := Placed(split.positions, moves), zones := Linked(split.zones, links))
  }

  function Updated(scene: Scene, cast: Cast, u: Option<SceneUpdate>, moves: seq<Move>, admits: Admission): (r: Scene)
    ensures r.zones == scene.zones && r.positions == scene.positions && r.present == scene.present
  {
    if u.Some? then UpdateScene(scene, ClampUpdate(scene, cast, u.value, moves), admits) else scene
  }

  /** `_apply_canon`. `stage` is the name a zone-less location would give its zone. */
  ghost function ApplyCanon(scene: Scene, cast: Cast, u: Option<SceneUpdate>, moves: seq<Move>, links: seq<Link>,
                            admits: Admission, stage: string): Scene
  {
    Rezoned(Updated(scene, cast, u, moves, admits), cast, moves, links, stage)
  }

  // ---- well-formedness -----------------------------------------------------

  /** Every position and every audible target names a zone, and no zone lists itself. */
  ghost predicate WellFormed(scene: Scene) {
    && (forall id | id in scene.positions :: scene.positions[id] in scene.zones)
    && (forall z | z in scene.zones :: forall o | o in scene.zones[z] :: o in scene.zones && o != z)
  }

  lemma OpenZoneWellFormed(scene: Scene, moves: seq<Move>, zone: string)
    requires WellFormed(scene)
    ensures WellFormed(OpenZone(scene, moves, zone))
    ensures OpenZone(scene, moves, zone).zones.Keys == scene.zones.Keys + {zone}
    ensures OpenZone(scene, moves, zone).positions == scene.positions
  {
    if zone !in scene.zones {
      var from := Origins(scene, moves, zone);
      Ordering.SortedIsSorted(from);
      var after := OpenZone(scene, moves, zone);
      forall z, o | z in after.zones && o in after.zones[z] ensures o in after.zones && o != z {
        if z != zone { assert o == zone || o in scene.zones[z]; } else { assert o in from; }
      }
    }
  }

  lemma {:induction false} OpenZonesWellFormed(scene: Scene, moves: seq<Move>, news: seq<string>)
    requires WellFormed(scene)
    ensures WellFormed(OpenZones(scene, moves, news))
    ensures OpenZones(scene, moves, news).zones.Keys == scene.zones.Keys + set z | z in news
    ensures OpenZones(scene, moves, news).positions == scene.positions
    ensures OpenZones(scene, moves, news).present == scene.present
  {
    if news != [] {
      var n := |news| - 1;
      OpenZonesWellFormed(scene, moves, news[..n]);
      OpenZoneWellFormed(OpenZones(scene, moves, news[..n]), moves, news[n]);
      assert news == news[..n] + [news[n]];
    }
  }

  lemma {:induction false} NewZonesExact(scene: Scene, moves: seq<Move>)
    ensures forall z :: z in NewZones(scene, moves) <==> z !in scene.zones && exists m :: m in moves && m.zone == z
  {
    if moves != [] {
      var n := |moves| - 1;
      NewZonesExact(scene, moves[..n]);
      assert moves == moves[..n] + [moves[n]];
      assert moves[n] in moves;
    }
  }

  lemma {:induction false} PlacedExact(positions: map<string, string>, moves: seq<Move>)
    requires forall i, j | 0 <= i < j < |moves| :: moves[i].mover != moves[j].mover
    ensures forall m | m in moves :: m.mover in Placed(positions, moves) && Placed(positions, moves)[m.mover] == m.zone
    ensures forall id | !Moves(moves, id) ::
              (id in Placed(positions, moves)) == (id in positions)
              && (id in positions ==> Placed(positions, moves)[id] == positions[id])
    ensures forall id | id in Placed(positions, moves) :: id in positions || Moves(moves, id)
  {
    if moves != [] {
      var n := |moves| - 1;
      PlacedExact(positions, moves[..n]);
      assert moves == moves[..n] + [moves[n]] && moves[n] in moves;
    }
  }

  lemma {:induction false} LinkedWellFormed(zones: Zones, links: seq<Link>)
    requires forall z | z in zones :: forall o | o in zones[z] :: o in zones && o != z
    requires forall l | l in links :: l.zone !in l.audible
    ensures Linked(zones, links).Keys == zones.Keys
    ensures forall z | z in Linked(zones, links) :: forall o | o in Linked(zones, links)[z] :: o in zones && o != z
  {
    if links != [] {
      var n := |links| - 1;
      assert links[n] in links;
      LinkedWellFormed(zones, links[..n]);
    }
  }

  lemma StagedWellFormed(scene: Scene, cast: Cast, moves: seq<Move>, stage: string)
    requires WellFormed(scene)
    ensures WellFormed(Staged(scene, cast, moves, stage))
    ensures scene.zones.Keys <= Staged(scene, cast, moves, stage).zones.Keys
  {
    assert |scene.zones| == 0 ==> scene.positions == map[];
  }

  /** Canon keeps the zone graph well-formed. */
  lemma CanonWellFormed(scene: Scene, cast: Cast, u: Option<SceneUpdate>, moves: seq<Move>, links: seq<Link>,
                        admits: Admission, stage: string)
    requires WellFormed(scene) && MovesOfPresent(moves, scene, cast)
    requires forall l | l in links :: l.zone !in l.audible
    ensures WellFormed(ApplyCanon(scene, cast, u, moves, links, admits, stage))
  {
    var updated := Updated(scene, cast, u, moves, admits);
    var staged := Staged(updated, cast, moves, stage);
    var news := NewZones(updated, moves);
    StagedWellFormed(updated, cast, moves, stage);
    OpenZonesWellFormed(staged, moves, news);
    var split := OpenZones(staged, moves, news);
    NewZonesExact(updated, moves);
    PlacedExact(split.positions, moves);
    LinkedWellFormed(split.zones, links);
    var after := Rezoned(updated, cast, moves, links, stage);
    forall id | id in after.positions ensures after.positions[id] in after.zones {
      if Moves(moves, id) {
        var m :| m in moves && m.mover == id;
        assert m.zone in updated.zones || m.zone in news;
      }
    }
  }

  // ---- who hears whom afterwards -------------------------------------------

  /** What opening zones does to the list of one zone. */
  ghost predicate Grown(before: Zones, after: Zones, z: string)
    requires z in before && z in after
  {
    && (forall o | o in before.Keys :: o in after[z] <==> o in before[z])
  }

  /** Opening zones adds edges between a new zone and its movers' origins, both ways, and no other
      edge between old zones. */
  lemma OpenZoneEdges(scene: Scene, moves: seq<Move>, zone: string)
    requires WellFormed(scene) && zone !in scene.zones
    ensures var after := OpenZone(scene, moves, zone);
            && (forall z | z in scene.zones :: Grown(scene.zones, after.zones, z))
            && (forall z | z in scene.zones :: z in after.zones[zone] <==> z in Origins(scene, moves, zone))
            && (forall z | z in scene.zones :: zone in after.zones[z] <==> z in Origins(scene, moves, zone))
  {
    Ordering.SortedIsSorted(Origins(scene, moves, zone));
  }

  /** The edges after all new zones are open, in terms of the scene before. */
  lemma {:induction false} OpenZonesEdges(scene: Scene, moves: seq<Move>, news: seq<string>)
    requires WellFormed(scene)
    ensures var after := OpenZones(scene, moves, news);
            && scene.zones.Keys <= after.zones.Keys
            && (forall z | z in scene.zones :: Grown(scene.zones, after.zones, z))
            && (forall m | m in moves && m.zone in news && m.zone !in scene.zones && m.mover in scene.positions
                  && scene.positions[m.mover] != "" ::
                  m.zone in after.zones && scene.positions[m.mover] in after.zones
                  && scene.positions[m.mover] in after.zones[m.zone]
                  && m.zone in after.zones[scene.positions[m.mover]])
  {
    if news != [] {
      var n := |news| - 1;
      var zone := news[n];
      assert news == news[..n] + [zone];
      OpenZonesEdges(scene, moves, news[..n]);
      OpenZonesWellFormed(scene, moves, news[..n]);
      var mid := OpenZones(scene, moves, news[..n]);
      OpenZonesWellFormed(scene, moves, news);
      if zone !in mid.zones {
        OpenZoneEdges(mid, moves, zone);
        var after := OpenZone(mid, moves, zone);
        forall z | z in scene.zones ensures Grown(scene.zones, after.zones, z) {
          assert Grown(scene.zones, mid.zones, z) && Grown(mid.zones, after.zones, z);
        }
        forall m | m in moves && m.zone in news && m.zone !in scene.zones && m.mover in scene.positions
                   && scene.positions[m.mover] != ""
          ensures var o := scene.positions[m.mover];
                  m.zone in after.zones && o in after.zones && o in after.zones[m.zone] && m.zone in after.zones[o]
        {
          var o := scene.positions[m.mover];
          if m.zone == zone {
            assert o in Origins(mid, moves, zone);
          } else {
            assert Grown(mid.zones, after.zones, m.zone) && Grown(mid.zones, after.zones, o);
          }
        }
      }
    }
  }

  /** `id` stands with `mover` before the beat: in the same named zone, or both on a stage without zones. */
  ghost predicate Together(scene: Scene, mover: string, id: string) {
    if |scene.zones| == 0 then true
    else mover in scene.positions && id in scene.positions && scene.positions[id] == scene.positions[mover]
         && scene.positions[mover] != ""
  }

  ghost predicate Relinked(links: seq<Link>, zone: string) {
    exists l | l in links :: l.zone == zone
  }

  lemma {:induction false} LinkedElsewhere(zones: Zones, links: seq<Link>, z: string)
    requires !Relinked(links, z)
    ensures Linked(zones, links).Keys == zones.Keys
    ensures z in zones ==> Linked(zones, links)[z] == zones[z]
  {
    if links != [] {
      var n := |links| - 1;
      assert links[n] in links;
      LinkedElsewhere(zones, links[..n], z);
    }
  }

  /** An update replaces the list by one drawn from what the update names. */
  lemma {:induction false} LinkedHere(zones: Zones, links: seq<Link>, z: string, allowed: set<string>)
    requires z in zones && Relinked(links, z)
    requires forall l | l in links :: forall o | o in l.audible :: o in allowed
    ensures Linked(zones, links).Keys == zones.Keys
    ensures forall o | o in Linked(zones, links)[z] :: o in allowed
  {
    var n := |links| - 1;
    assert links == links[..n] + [links[n]];
    LinkedKeys(zones, links[..n]);
    if links[n].zone != z {
      LinkedHere(zones, links[..n], z, allowed);
    } else {
      assert links[n] in links;
    }
  }

  lemma {:induction false} LinkedKeys(zones: Zones, links: seq<Link>)
    ensures Linked(zones, links).Keys == zones.Keys
  {
    if links != [] { LinkedKeys(zones, links[..|links| - 1]); }
  }

  lemma StagedTogether(scene: Scene, cast: Cast, moves: seq<Move>, stage: string, mover: string, id: string)
    requires WellFormed(scene) && Together(scene, mover, id) && NewZones(scene, moves) != []
    requires mover in scene.present && mover in cast && id in scene.present && id in cast
    requires |scene.zones| == 0 ==> stage != ""
    ensures var staged := Staged(scene, cast, moves, stage);
            && mover in staged.positions && id in staged.positions
            && staged.positions[mover] == staged.positions[id] != ""
            && staged.positions[mover] in staged.zones
            && (|scene.zones| > 0 ==> staged == scene)
  {
  }

  lemma RezonedOpensNewZones(scene: Scene, cast: Cast, moves: seq<Move>, raw: seq<Link>, stage: string, m: Move, id: string)
    requires WellFormed(scene) && MovesOfPresent(moves, scene, cast)
    requires m in moves && m.zone !in scene.zones
    requires id in scene.present && id in cast && !Moves(moves, id) && Together(scene, m.mover, id)
    requires |scene.zones| == 0 ==> stage != ""
    ensures var links := NormalizeLinks(raw, scene.zones);
            var after := Rezoned(scene, cast, moves, links, stage);
            && CanPerceive(after, m.mover, id)
            && (CanPerceive(after, id, m.mover) <==> |scene.zones| == 0 || !Relinked(links, scene.positions[id]))
  {
    var links := NormalizeLinks(raw, scene.zones);
    var news := NewZones(scene, moves);
    NewZonesExact(scene, moves);
    assert m.zone in news;
    var staged := Staged(scene, cast, moves, stage);
    StagedWellFormed(scene, cast, moves, stage);
    StagedTogether(scene, cast, moves, stage, m.mover, id);
    var split := OpenZones(staged, moves, news);
    OpenZonesWellFormed(staged, moves, news);
    OpenZonesEdges(staged, moves, news);
    PlacedExact(split.positions, moves);
    var origin := staged.positions[id];
    assert !Relinked(links, m.zone);
    LinkedElsewhere(split.zones, links, m.zone);
    var after := Rezoned(scene, cast, moves, links, stage);
    assert after.positions[m.mover] == m.zone && after.positions[id] == origin;
    if m.zone in staged.zones {
      assert |scene.zones| == 0 && m.zone == stage == origin;
    } else {
      assert origin in split.zones[m.zone] && m.zone in split.zones[origin];
      assert origin in after.zones[m.zone];
      if Relinked(links, origin) {
        LinkedHere(split.zones, links, origin, scene.zones.Keys);
        assert m.zone !in after.zones[origin];
      } else {
        LinkedElsewhere(split.zones, links, origin);
      }
    }
  }

  lemma RezonedKeepsBystanders(scene: Scene, cast: Cast, moves: seq<Move>, stage: string, a: string, b: string)
    requires WellFormed(scene) && MovesOfPresent(moves, scene, cast)
    requires !Moves(moves, a) && !Moves(moves, b)
    ensures CanPerceive(Rezoned(scene, cast, moves, [], stage), a, b) <==> CanPerceive(scene, a, b)
  {
    var news := NewZones(scene, moves);
    var staged := Staged(scene, cast, moves, stage);
    StagedWellFormed(scene, cast, moves, stage);
    OpenZonesWellFormed(staged, moves, news);
    OpenZonesEdges(staged, moves, news);
    var split := OpenZones(staged, moves, news);
    PlacedExact(split.positions, moves);
    NewZonesExact(scene, moves);
    if a in staged.positions && b in staged.positions {
      assert Grown(staged.zones, split.zones, staged.positions[a]);
    }
    if |scene.zones| == 0 {
      assert scene.positions == map[];
    } else {
      assert split.zones != map[];
    }
  }

  /** A mover into a brand-new zone and a companion left where they came from: the mover always
      perceives the companion, and the companion perceives the mover exactly when no link update names
      the zone they came from. No update `narrate` lets through can name the new zone itself. */
  lemma NewZoneIsOpen(scene: Scene, cast: Cast, u: Option<SceneUpdate>, moves: seq<Move>, raw: seq<Link>,
                      admits: Admission, stage: string, m: Move, id: string)
    requires WellFormed(scene) && MovesOfPresent(moves, scene, cast)
    requires m in moves && m.zone !in scene.zones
    requires id in scene.present && id in cast && !Moves(moves, id) && Together(scene, m.mover, id)
    requires |scene.zones| == 0 ==> stage != ""
    ensures var links := NormalizeLinks(raw, scene.zones);
            var after := ApplyCanon(scene, cast, u, moves, links, admits, stage);
            && CanPerceive(after, m.mover, id)
            && (CanPerceive(after, id, m.mover) <==> |scene.zones| == 0 || !Relinked(links, scene.positions[id]))
  {
    RezonedOpensNewZones(Updated(scene, cast, u, moves, admits), cast, moves, raw, stage, m, id);
  }

  /** Without a link update, nothing changes between characters who did not move. */
  lemma BystandersUnchanged(scene: Scene, cast: Cast, u: Option<SceneUpdate>, moves: seq<Move>, admits: Admission,
                            stage: string, a: string, b: string)
    requires WellFormed(scene) && MovesOfPresent(moves, scene, cast)
    requires !Moves(moves, a) && !Moves(moves, b)
    ensures CanPerceive(ApplyCanon(scene, cast, u, moves, [], admits, stage), a, b) <==> CanPerceive(scene, a, b)
  {
    RezonedKeepsBystanders(Updated(scene, cast, u, moves, admits), cast, moves, stage, a, b);
  }

  // ---- what a link update leaves -------------------------------------------

  /** The keys of a JSON object: no zone is updated twice. */
  ghost predicate OneEach(links: seq<Link>) {
    forall i, j | 0 <= i < j < |links| :: links[i].zone != links[j].zone
  }

  lemma {:induction false} DedupedInOrder(xs: seq<string>)
    ensures InOrderOf(Deduped(xs), xs)
  {
    if xs != [] {
      var n := |xs| - 1;
      DedupedInOrder(xs[..n]);
      assert xs == xs[..n] + [xs[n]];
      InOrderMore(Deduped(xs[..n]), xs[..n], xs[n]);
    }
  }

  /** `x` is named before everything in `r`. */
  ghost predicate Ahead(xs: seq<string>, x: string, r: seq<string>) {
    x in xs && forall y | y in r :: y in xs && FirstAt(xs, x) < FirstAt(xs, y)
  }

  lemma InOrderTail(r: seq<string>, xs: seq<string>)
    requires r != [] && InOrderOf(r, xs)
    ensures InOrderOf(r[1..], xs) && Ahead(xs, r[0], r[1..])
  {
    var rest := r[1..];
    forall i, j | 0 <= i < j < |rest| ensures rest[i] in xs && rest[j] in xs && FirstAt(xs, rest[i]) < FirstAt(xs, rest[j]) {
      assert rest[i] == r[i + 1] && rest[j] == r[j + 1];
    }
    forall y | y in rest ensures y in xs && FirstAt(xs, r[0]) < FirstAt(xs, y) {
      var j :| 0 <= j < |rest| && rest[j] == y;
      assert r[j + 1] == y;
    }
  }

  lemma InOrderCons(x: string, rest: seq<string>, xs: seq<string>)
    requires InOrderOf(rest, xs) && Ahead(xs, x, rest)
    ensures InOrderOf([x] + rest, xs)
  {
    var r := [x] + rest;
    forall i, j | 0 <= i < j < |r| ensures r[i] in xs && r[j] in xs && FirstAt(xs, r[i]) < FirstAt(xs, r[j]) {
      assert r[j] == rest[j - 1] && rest[j - 1] in rest;
      if i > 0 { assert r[i] == rest[i - 1]; }
    }
  }

  lemma {:induction false} KnownInOrder(r: seq<string>, zones: set<string>, xs: seq<string>)
    requires InOrderOf(r, xs)
    ensures InOrderOf(Known(r, zones), xs)
  {
    if r != [] {
      InOrderTail(r, xs);
      KnownInOrder(r[1..], zones, xs);
      if r[0] in zones {
        InOrderCons(r[0], Known(r[1..], zones), xs);
      } else {
        assert Known(r, zones) == Known(r[1..], zones);
      }
    }
  }

  /** What `narrate` makes of one entry. */
  function Cleaned(r: Link, zones: Zones): (l: Link)
    ensures l.zone == r.zone && forall o :: o in l.audible <==> o in r.audible && o in zones && o != r.zone
  {
    Link(r.zone, Known(Deduped(r.audible), zones.Keys - {r.zone}))
  }

  lemma {:induction false} LinkKept(raw: seq<Link>, zones: Zones, r: Link)
    requires r in raw && r.zone in zones
    ensures Cleaned(r, zones) in NormalizeLinks(raw, zones)
  {
    if r != raw[0] { LinkKept(raw[1..], zones, r); }
  }

  lemma {:induction false} LinksOneEach(raw: seq<Link>, zones: Zones)
    requires OneEach(raw)
    ensures OneEach(NormalizeLinks(raw, zones))
    ensures forall l | l in NormalizeLinks(raw, zones) :: exists r :: r in raw && r.zone == l.zone
  {
    if raw != [] {
      LinksOneEach(raw[1..], zones);
      forall l | l in NormalizeLinks(raw, zones) ensures exists r :: r in raw && r.zone == l.zone {
        if l in NormalizeLinks(raw[1..], zones) {
          var r :| r in raw[1..] && r.zone == l.zone;
          assert r in raw;
        } else {
          assert raw[0] in raw;
        }
      }
      forall l | l in NormalizeLinks(raw[1..], zones) ensures l.zone != raw[0].zone {
        var r :| r in raw[1..] && r.zone == l.zone;
        var j :| 0 <= j < |raw[1..]| && raw[1..][j] == r;
        assert raw[j + 1] == r;
      }
    }
  }

  lemma {:induction false} LinkedExact(zones: Zones, links: seq<Link>, k: nat)
    requires OneEach(links) && k < |links| && links[k].zone in zones
    ensures links[k].zone in Linked(zones, links)
    ensures Linked(zones, links)[links[k].zone] == Known(links[k].audible, zones.Keys)
  {
    var n := |links| - 1;
    LinkedKeys(zones, links[..n]);
    if k < n {
      assert links[..n][k] == links[k] && links[n].zone != links[k].zone;
      LinkedExact(zones, links[..n], k);
    }
  }

  /** Every link update of a zone that exists is carried out whole: afterwards the zone hears exactly the
      listed zones that existed before the beat, itself excepted, in the listed order and none twice. */
  lemma LinksAreObeyed(scene: Scene, cast: Cast, u: Option<SceneUpdate>, moves: seq<Move>, raw: seq<Link>,
                       admits: Admission, stage: string, r: Link)
    requires WellFormed(scene) && OneEach(raw) && r in raw && r.zone in scene.zones
    ensures var after := ApplyCanon(scene, cast, u, moves, NormalizeLinks(raw, scene.zones), admits, stage);
            && r.zone in after.zones
            && (forall o :: o in after.zones[r.zone] <==> o in r.audible && o in scene.zones && o != r.zone)
            && InOrderOf(after.zones[r.zone], r.audible)
  {
    var links := NormalizeLinks(raw, scene.zones);
    var updated := Updated(scene, cast, u, moves, admits);
    var staged := Staged(updated, cast, moves, stage);
    StagedWellFormed(updated, cast, moves, stage);
    OpenZonesWellFormed(staged, moves, NewZones(updated, moves));
    var split := OpenZones(staged, moves, NewZones(updated, moves));
    LinksOneEach(raw, scene.zones);
    LinkKept(raw, scene.zones, r);
    var l := Cleaned(r, scene.zones);
    var k :| 0 <= k < |links| && links[k] == l;
    LinkedExact(split.zones, links, k);
    DedupedInOrder(r.audible);
    KnownInOrder(Deduped(r.audible), scene.zones.Keys - {r.zone}, r.audible);
    KnownInOrder(l.audible, split.zones.Keys, r.audible);
  }

  // ---- what a new zone hears, and when the stage itself moves ---------------

  /** Somebody who moves to `zone` stood in `from` before. */
  ghost predicate CameFrom(scene: Scene, moves: seq<Move>, zone: string, from: string) {
    exists m | m in moves :: m.zone == zone && m.mover in scene.positions && scene.positions[m.mover] == from != ""
  }

  lemma {:induction false} OpenedExact(scene: Scene, moves: seq<Move>, news: seq<string>, zone: string, z: string)
    requires WellFormed(scene) && zone in news && zone !in scene.zones && z in scene.zones
    ensures var after := OpenZones(scene, moves, news);
            && zone in after.zones && z in after.zones
            && (z in after.zones[zone] <==> CameFrom(scene, moves, zone, z))
            && (zone in after.zones[z] <==> CameFrom(scene, moves, zone, z))
  {
    var n := |news| - 1;
    assert news == news[..n] + [news[n]];
    var mid := OpenZones(scene, moves, news[..n]);
    OpenZonesWellFormed(scene, moves, news[..n]);
    if news[n] !in mid.zones { OpenZoneEdges(mid, moves, news[n]); }
    if zone in news[..n] {
      OpenedExact(scene, moves, news[..n], zone, z);
      if news[n] !in mid.zones {
        assert Grown(mid.zones, OpenZone(mid, moves, news[n]).zones, zone);
        assert Grown(mid.zones, OpenZone(mid, moves, news[n]).zones, z);
      }
    } else {
      assert z in Origins(mid, moves, zone) <==> CameFrom(scene, moves, zone, z);
    }
  }

  /** On a stage with zones a new zone is linked both ways with exactly the zones its movers came from;
      a link update of such a zone takes its own half away again, and nothing else can. */
  lemma NewZoneEdges(scene: Scene, cast: Cast, u: Option<SceneUpdate>, moves: seq<Move>, raw: seq<Link>,
                     admits: Admission, stage: string, m: Move, z: string)
    requires WellFormed(scene) && m in moves && m.zone !in scene.zones && z in scene.zones
    ensures var links := NormalizeLinks(raw, scene.zones);
            var after := ApplyCanon(scene, cast, u, moves, links, admits, stage);
            && m.zone in after.zones && z in after.zones
            && (z in after.zones[m.zone] <==> CameFrom(scene, moves, m.zone, z))
            && (m.zone in after.zones[z] <==> CameFrom(scene, moves, m.zone, z) && !Relinked(links, z))
  {
    var links := NormalizeLinks(raw, scene.zones);
    var updated := Updated(scene, cast, u, moves, admits);
    NewZonesExact(updated, moves);
    var news := NewZones(updated, moves);
    assert Staged(updated, cast, moves, stage) == updated;
    OpenedExact(updated, moves, news, m.zone, z);
    assert CameFrom(updated, moves, m.zone, z) <==> CameFrom(scene, moves, m.zone, z);
    var split := OpenZones(updated, moves, news);
    LinkedElsewhere(split.zones, links, m.zone);
    if Relinked(links, z) {
      LinkedHere(split.zones, links, z, scene.zones.Keys);
    } else {
      LinkedElsewhere(split.zones, links, z);
    }
  }

  lemma FirstSplit(scene: Scene, cast: Cast, moves: seq<Move>, stage: string, id: string)
    requires WellFormed(scene) && scene.zones == map[] && scene.positions == map[] && moves != []
    requires MovesOfPresent(moves, scene, cast) && !Moves(moves, id)
    ensures var after := Rezoned(scene, cast, moves, [], stage);
            && stage in after.zones
            && (id in after.positions <==> id in scene.present && id in cast)
            && (id in after.positions ==> after.positions[id] == stage)
  {
    NewZonesExact(scene, moves);
    var news := NewZones(scene, moves);
    assert moves[0] in moves && moves[0].zone in news;
    var staged := NameStage(scene, cast, stage);
    StagedWellFormed(scene, cast, moves, stage);
    OpenZonesWellFormed(staged, moves, news);
    PlacedExact(staged.positions, moves);
  }

  /** The first split of a stage without zones puts everybody present who does not move on it, and leaves
      the absent where they were; without a new destination there are still no zones. */
  lemma FirstSplitPlacesAll(scene: Scene, cast: Cast, u: Option<SceneUpdate>, moves: seq<Move>, raw: seq<Link>,
                            admits: Admission, stage: string, id: string)
    requires WellFormed(scene) && scene.zones == map[] && MovesOfPresent(moves, scene, cast) && !Moves(moves, id)
    ensures var after := ApplyCanon(scene, cast, u, moves, NormalizeLinks(raw, scene.zones), admits, stage);
            && (moves == [] ==> after.zones == map[] && after.positions == map[])
            && (moves != [] ==> stage in after.zones)
            && (id in after.positions <==> moves != [] && id in scene.present && id in cast)
            && (id in after.positions ==> after.positions[id] == stage)
  {
    var updated := Updated(scene, cast, u, moves, admits);
    assert scene.positions == map[];
    if moves == [] {
      assert ApplyCanon(scene, cast, u, moves, [], admits, stage) == updated;
    } else {
      FirstSplit(updated, cast, moves, stage, id);
    }
  }

  /** The place changes exactly when the update names another one and nobody present is left behind by the
      moves; the facts of the old place go with it, and the cast on stage stays. */
  lemma StageMovesWithEveryone(scene: Scene, cast: Cast, u: SceneUpdate, moves: seq<Move>, links: seq<Link>,
                               admits: Admission, stage: string)
    ensures var after := ApplyCanon(scene, cast, Some(u), moves, links, admits, stage);
            var behind := moves != [] && exists id | id in scene.present && id in cast :: !Moves(moves, id);
            && after.present == scene.present
            && (behind || u.location.None? || Strip(u.location.value) == [] || Strip(u.location.value) == scene.location ==>
                  after.location == scene.location && after.facts == WriteFacts(scene.facts, u.writes, admits))
            && (!behind && u.location.Some? && Strip(u.location.value) !in {[], scene.location} ==>
                  after.location == Strip(u.location.value) && after.facts == WriteFacts([], u.writes, admits))
            && after.timeOfDay ==
                 if u.timeOfDay.Some? && Strip(u.timeOfDay.value) != [] then Strip(u.timeOfDay.value) else scene.timeOfDay
  {
    var updated := Updated(scene, cast, Some(u), moves, admits);
    OpenZonesKeepScene(Staged(updated, cast, moves, stage), moves, NewZones(updated, moves));
  }

  lemma {:induction false} OpenZonesKeepScene(scene: Scene, moves: seq<Move>, news: seq<string>)
    ensures OpenZones(scene, moves, news) == scene.(zones := OpenZones(scene, moves, news).zones)
  {
    if news != [] { OpenZonesKeepScene(scene, moves, news[..|news| - 1]); }
  }
}
