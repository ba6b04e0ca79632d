/** `_update_scene`: reserved fields, physical-fact writes and the eviction cap. */
module SceneFacts {
  import opened Wrappers
  import opened Text
  import opened Model

  const MAX_PHYSICAL_FACTS: nat := 40

  /** A None value removes the fact. */
  datatype FactWrite = FactWrite(key: Text, value: Option<Text>)

  /** A scene update after coercion of its values: the two reserved fields, then the facts in order. */
  datatype SceneUpdate = SceneUpdate(location: Option<Text>, timeOfDay: Option<Text>, writes: seq<FactWrite>)

  /** Whether a key that is not yet in the scene may join it (transient-state and synonym filters). */
  type Admission = (Text, seq<Fact>) -> bool

  predicate HasKey(facts: seq<Fact>, key: Text) {
    exists f | f in facts :: f.key == key
  }

  /** Assignment to a dict key: in place when present, at the end otherwise. */
  function Put(facts: seq<Fact>, key: Text, value: Text): seq<Fact> {
    if facts == [] then [Fact(key, value)]
    else if facts[0].key == key then [Fact(key, value)] + facts[1..]
    else [facts[0]] + Put(facts[1..], key, value)
  }

  function Remove(facts: seq<Fact>, key: Text): seq<Fact> {
    if facts == [] then []
    else if facts[0].key == key then facts[1..]
    else [facts[0]] + Remove(facts[1..], key)
  }

  function Evicted(facts: seq<Fact>): seq<Fact> {
    if |facts| <= MAX_PHYSICAL_FACTS then facts else facts[|facts| - MAX_PHYSICAL_FACTS..]
  }

  function WriteFact(facts: seq<Fact>, w: FactWrite, admits: Admission): seq<Fact> {
    if w.value.None? then Remove(facts, w.key)
    else if !HasKey(facts, w.key) && !admits(w.key, facts) then facts
    else Evicted(Put(facts, w.key, w.value.value))
  }

  function WriteFacts(facts: seq<Fact>, writes: seq<FactWrite>, admits: Admission): seq<Fact> {
    if writes == [] then facts
    else WriteFact(WriteFacts(facts, writes[..|writes| - 1], admits), writes[|writes| - 1], admits)
  }

  predicate Relocates(scene: Scene, u: SceneUpdate) {
    u.location.Some? && Strip(u.location.value) != [] && Strip(u.location.value) != scene.location
  }

  /** The facts an update writes into: none of the old ones after a change of location. */
  function WrittenOver(scene: Scene, u: SceneUpdate): seq<Fact> {
    if Relocates(scene, u) then [] else scene.facts
  }

  function UpdateScene(scene: Scene, u: SceneUpdate, admits: Admission): Scene {
    var at := if Relocates(scene, u) then Strip(u.location.value) else scene.location;
    var when := if u.timeOfDay.Some? && Strip(u.timeOfDay.value) != [] then Strip(u.timeOfDay.value) else scene.timeOfDay;
    scene.(location := at, timeOfDay := when, facts := WriteFacts(WrittenOver(scene, u), u.writes, admits))
  }

  /** Where the facts of an updated scene can come from. */
  lemma {:induction false} FactsComeFrom(facts: seq<Fact>, writes: seq<FactWrite>, admits: Admission)
    ensures forall f | f in WriteFacts(facts, writes, admits) ::
              f in facts || exists w :: w in writes && w.value == Some(f.value) && w.key == f.key
  {
    if writes != [] {
      var n := |writes| - 1;
      var w := writes[n];
      var mid := WriteFacts(facts, writes[..n], admits);
      FactsComeFrom(facts, writes[..n], admits);
      forall f | f in WriteFacts(facts, writes, admits)
        ensures f in facts || exists x :: x in writes && x.value == Some(f.value) && x.key == f.key
      {
        WriteFactFrom(mid, w, admits, f);
        if f !in mid {
          assert w in writes;
        }
      }
    }
  }

  lemma WriteFactFrom(facts: seq<Fact>, w: FactWrite, admits: Admission, f: Fact)
    requires f in WriteFact(facts, w, admits)
    ensures f in facts || (w.value == Some(f.value) && w.key == f.key)
  {
    if w.value.None? {
      RemoveKeeps(facts, w.key, f);
    } else if f in Put(facts, w.key, w.value.value) {
      PutKeeps(facts, w.key, w.value.value, f);
    }
  }

  lemma {:induction false} PutKeeps(facts: seq<Fact>, key: Text, value: Text, f: Fact)
    requires f in Put(facts, key, value)
    ensures f in facts || f == Fact(key, value)
  {
    if facts != [] && facts[0].key != key && f in Put(facts[1..], key, value) {
      PutKeeps(facts[1..], key, value, f);
    }
  }

  lemma {:induction false} RemoveKeeps(facts: seq<Fact>, key: Text, f: Fact)
    requires f in Remove(facts, key)
    ensures f in facts
  {
    if facts != [] && facts[0].key != key && f in Remove(facts[1..], key) {
      RemoveKeeps(facts[1..], key, f);
    }
  }

  lemma {:induction false} PutSize(facts: seq<Fact>, key: Text, value: Text)
    ensures |Put(facts, key, value)| == |facts| + if HasKey(facts, key) then 0 else 1
  {
    if facts != [] && facts[0].key != key {
      PutSize(facts[1..], key, value);
      assert HasKey(facts, key) == HasKey(facts[1..], key);
    }
  }

  // ---- the cap -------------------------------------------------------------

  lemma {:induction false} RemoveSize(facts: seq<Fact>, key: Text)
    ensures |Remove(facts, key)| == |facts| - if HasKey(facts, key) then 1 else 0
  {
    if facts != [] && facts[0].key != key {
      RemoveSize(facts[1..], key);
      assert HasKey(facts, key) == HasKey(facts[1..], key);
    }
  }

  /** A write into a scene within the cap keeps it there, and costs an old fact only when it adds a new key to
      a full scene: then the oldest, and no other. */
  lemma WriteWithinCap(facts: seq<Fact>, w: FactWrite, admits: Admission)
    requires |facts| <= 40
    ensures var after := WriteFact(facts, w, admits);
            && |after| <= 40
            && (w.value.Some? && (HasKey(facts, w.key) || (admits(w.key, facts) && |facts| < 40)) ==>
                  after == Put(facts, w.key, w.value.value))
            && (w.value.Some? && !HasKey(facts, w.key) && admits(w.key, facts) && |facts| == 40 ==>
                  after == facts[1..] + [Fact(w.key, w.value.value)])
  {
    if w.value.None? {
      RemoveSize(facts, w.key);
    } else {
      PutSize(facts, w.key, w.value.value);
      if !HasKey(facts, w.key) { PutNew(facts, w.key, w.value.value); }
    }
  }

  lemma {:induction false} PutNew(facts: seq<Fact>, key: Text, value: Text)
    requires !HasKey(facts, key)
    ensures Put(facts, key, value) == facts + [Fact(key, value)]
  {
    if facts != [] {
      assert facts[0] in facts;
      assert !HasKey(facts[1..], key);
      PutNew(facts[1..], key, value);
      assert facts == [facts[0]] + facts[1..];
    }
  }

  lemma {:induction false} WritesWithinCap(facts: seq<Fact>, writes: seq<FactWrite>, admits: Admission)
    requires |facts| <= MAX_PHYSICAL_FACTS
    ensures |WriteFacts(facts, writes, admits)| <= MAX_PHYSICAL_FACTS
  {
    if writes != [] {
      var n := |writes| - 1;
      WritesWithinCap(facts, writes[..n], admits);
      WriteWithinCap(WriteFacts(facts, writes[..n], admits), writes[n], admits);
    }
  }

  function UpdateAll(scene: Scene, us: seq<SceneUpdate>, admits: Admission): Scene {
    if us == [] then scene else UpdateScene(UpdateAll(scene, us[..|us| - 1], admits), us[|us| - 1], admits)
  }

  /** Over every sequence of updates a scene never holds more facts than the cap. */
  lemma {:induction false} FactsStayWithinCap(scene: Scene, us: seq<SceneUpdate>, admits: Admission)
    requires |scene.facts| <= MAX_PHYSICAL_FACTS
    ensures |UpdateAll(scene, us, admits).facts| <= MAX_PHYSICAL_FACTS
  {
    if us != [] {
      var n := |us| - 1;
      FactsStayWithinCap(scene, us[..n], admits);
      var before := UpdateAll(scene, us[..n], admits);
      WritesWithinCap(before.facts, us[n].writes, admits);
      WritesWithinCap([], us[n].writes, admits);
    }
  }

  // ---- which keys a scene ends up with -------------------------------------

  /** The keys of a scene are all different. */
  ghost predicate DistinctKeys(facts: seq<Fact>) {
    forall i, j | 0 <= i < j < |facts| :: facts[i].key != facts[j].key
  }

  lemma {:induction false} PutInPlace(facts: seq<Fact>, key: Text, value: Text)
    requires HasKey(facts, key)
    ensures |Put(facts, key, value)| == |facts|
    ensures forall i | 0 <= i < |facts| :: Put(facts, key, value)[i].key == facts[i].key
  {
    if facts[0].key != key {
      assert HasKey(facts[1..], key);
      PutInPlace(facts[1..], key, value);
    }
  }

  lemma SameKeys(facts: seq<Fact>, after: seq<Fact>)
    requires |after| == |facts| && forall i | 0 <= i < |facts| :: after[i].key == facts[i].key
    ensures forall k :: HasKey(facts, k) ==> HasKey(after, k)
  {
    forall k | HasKey(facts, k) ensures HasKey(after, k) {
      var i :| 0 <= i < |facts| && facts[i].key == k;
      assert after[i] in after;
    }
  }

  lemma SnocKeys(facts: seq<Fact>, f: Fact)
    ensures forall k :: HasKey(facts + [f], k) <==> HasKey(facts, k) || k == f.key
  {
    assert f in facts + [f];
  }

  lemma SnocDistinct(facts: seq<Fact>, f: Fact)
    requires DistinctKeys(facts) && !HasKey(facts, f.key)
    ensures DistinctKeys(facts + [f])
  {
    forall i | 0 <= i < |facts| ensures facts[i].key != f.key { assert facts[i] in facts; }
  }

  lemma PutKeys(facts: seq<Fact>, key: Text, value: Text)
    requires DistinctKeys(facts)
    ensures DistinctKeys(Put(facts, key, value))
    ensures forall k :: HasKey(Put(facts, key, value), k) <==> HasKey(facts, k) || k == key
  {
    if HasKey(facts, key) {
      PutInPlace(facts, key, value);
      SameKeys(facts, Put(facts, key, value));
      SameKeys(Put(facts, key, value), facts);
    } else {
      PutNew(facts, key, value);
      SnocKeys(facts, Fact(key, value));
      SnocDistinct(facts, Fact(key, value));
    }
  }

  lemma ConsKeys(f: Fact, facts: seq<Fact>)
    ensures forall k :: HasKey([f] + facts, k) <==> f.key == k || HasKey(facts, k)
  {
    assert f in [f] + facts;
  }

  lemma ConsDistinct(f: Fact, facts: seq<Fact>)
    requires DistinctKeys(facts) && !HasKey(facts, f.key)
    ensures DistinctKeys([f] + facts)
  {
    forall i | 0 <= i < |facts| ensures facts[i].key != f.key { assert facts[i] in facts; }
  }

  lemma {:induction false} RemoveKeys(facts: seq<Fact>, key: Text)
    requires DistinctKeys(facts)
    ensures DistinctKeys(Remove(facts, key))
    ensures forall k :: HasKey(Remove(facts, key), k) <==> HasKey(facts, k) && k != key
  {
    if facts != [] {
      assert facts == [facts[0]] + facts[1..];
      ConsKeys(facts[0], facts[1..]);
      forall i | 1 <= i < |facts| ensures facts[i].key != facts[0].key {}
      assert !HasKey(facts[1..], facts[0].key);
      if facts[0].key != key {
        RemoveKeys(facts[1..], key);
        ConsKeys(facts[0], Remove(facts[1..], key));
        ConsDistinct(facts[0], Remove(facts[1..], key));
      }
    }
  }

  /** The keys after one write. */
  lemma WriteKeys(facts: seq<Fact>, w: FactWrite, admits: Admission)
    requires DistinctKeys(facts)
    ensures var after := WriteFact(facts, w, admits);
            && DistinctKeys(after) && |after| <= |facts| + 1
            && (forall k :: HasKey(after, k) ==>
                  if HasKey(facts, k) then (k == w.key ==> w.value.Some?)
                  else k == w.key && w.value.Some? && admits(k, facts))
            && (|facts| < MAX_PHYSICAL_FACTS ==>
                  forall k :: HasKey(after, k) <==>
                    if k == w.key then w.value.Some? && (HasKey(facts, k) || admits(k, facts)) else HasKey(facts, k))
  {
    if w.value.None? {
      RemoveKeys(facts, w.key);
      RemoveSize(facts, w.key);
    } else {
      var put := Put(facts, w.key, w.value.value);
      PutKeys(facts, w.key, w.value.value);
      PutSize(facts, w.key, w.value.value);
      EvictedKeys(put);
    }
  }

  lemma EvictedKeys(facts: seq<Fact>)
    requires DistinctKeys(facts)
    ensures DistinctKeys(Evicted(facts)) && |Evicted(facts)| <= |facts|
    ensures forall k :: HasKey(Evicted(facts), k) ==> HasKey(facts, k)
  {
  }

  // ---- past the cap --------------------------------------------------------

  function KeySet(facts: seq<Fact>): set<Text> {
    set f | f in facts :: f.key
  }

  /** Write `i` appends its key to the scene. */
  predicate Enters(facts: seq<Fact>, writes: seq<FactWrite>, admits: Admission, i: nat)
    requires i < |writes|
  {
    var before := WriteFacts(facts, writes[..i], admits);
    writes[i].value.Some? && !HasKey(before, writes[i].key) && admits(writes[i].key, before)
  }

  /** No write between `i` and `j` removes the key of write `i`. */
  predicate Stays(writes: seq<FactWrite>, i: nat, j: nat)
    requires i < |writes| && j <= |writes|
  {
    forall l | i < l < j :: writes[l].key == writes[i].key ==> writes[l].value.Some?
  }

  /** The keys that entered between the writes `i` and `j` and were not removed since. */
  function Newcomers(facts: seq<Fact>, writes: seq<FactWrite>, admits: Admission, i: nat, j: nat): set<Text>
    requires i < |writes| && j <= |writes|
  {
    set m | i < m < j && Enters(facts, writes, admits, m) && Stays(writes, m, j) :: writes[m].key
  }

  /** Write `i` brings in its key for good: no later write removes it, and never do forty newcomers stand
      behind it. */
  predicate Settles(facts: seq<Fact>, writes: seq<FactWrite>, admits: Admission, i: nat, j: nat)
    requires i < j <= |writes|
  {
    && Enters(facts, writes, admits, i)
    && Stays(writes, i, j)
    && forall l | i < l <= j :: |Newcomers(facts, writes, admits, i, l)| < MAX_PHYSICAL_FACTS
  }

  function NewcomersAfter(late: set<Text>, facts: seq<Fact>, w: FactWrite, admits: Admission): set<Text> {
    if w.value.None? then late - {w.key}
    else if !HasKey(facts, w.key) && admits(w.key, facts) then late + {w.key}
    else late
  }

  lemma Newcomer(facts: seq<Fact>, writes: seq<FactWrite>, admits: Admission, i: nat, j: nat, m: nat)
    requires i < m < j <= |writes| && Enters(facts, writes, admits, m) && Stays(writes, m, j)
    ensures writes[m].key in Newcomers(facts, writes, admits, i, j)
  {
  }

  lemma StaysStep(writes: seq<FactWrite>, m: nat, j: nat)
    requires m < j < |writes|
    ensures Stays(writes, m, j + 1) <==>
            Stays(writes, m, j) && (writes[j].key == writes[m].key ==> writes[j].value.Some?)
  {
  }

  lemma NewcomerFrom(facts: seq<Fact>, writes: seq<FactWrite>, admits: Admission, i: nat, j: nat, k: Text) returns (m: nat)
    requires i < j <= |writes| && k in Newcomers(facts, writes, admits, i, j)
    ensures i < m < j && writes[m].key == k && Enters(facts, writes, admits, m) && Stays(writes, m, j)
  {
    m :| i < m < j && Enters(facts, writes, admits, m) && Stays(writes, m, j) && writes[m].key == k;
  }

  /** A key is a newcomer after a write if it was one and stays, or enters with it. */
  lemma NewcomerStep(facts: seq<Fact>, writes: seq<FactWrite>, admits: Admission, i: nat, j: nat, k: Text)
    requires i < j < |writes|
    ensures k in Newcomers(facts, writes, admits, i, j + 1) <==>
            || (k in Newcomers(facts, writes, admits, i, j) && (writes[j].key == k ==> writes[j].value.Some?))
            || (writes[j].key == k && Enters(facts, writes, admits, j))
  {
    if k in Newcomers(facts, writes, admits, i, j + 1) {
      var m := NewcomerFrom(facts, writes, admits, i, j + 1, k);
      if m < j {
        StaysStep(writes, m, j);
        Newcomer(facts, writes, admits, i, j, m);
      }
    }
    if k in Newcomers(facts, writes, admits, i, j) && (writes[j].key == k ==> writes[j].value.Some?) {
      var m := NewcomerFrom(facts, writes, admits, i, j, k);
      StaysStep(writes, m, j);
      Newcomer(facts, writes, admits, i, j + 1, m);
    }
    if writes[j].key == k && Enters(facts, writes, admits, j) {
      Newcomer(facts, writes, admits, i, j + 1, j);
    }
  }

  /** The newcomers, one write at a time. */
  lemma NewcomersStep(facts: seq<Fact>, writes: seq<FactWrite>, admits: Admission, i: nat, j: nat)
    requires i < j < |writes|
    ensures Newcomers(facts, writes, admits, i, j + 1) ==
            NewcomersAfter(Newcomers(facts, writes, admits, i, j), WriteFacts(facts, writes[..j], admits), writes[j], admits)
  {
    var now := NewcomersAfter(Newcomers(facts, writes, admits, i, j), WriteFacts(facts, writes[..j], admits), writes[j], admits);
    forall k ensures k in Newcomers(facts, writes, admits, i, j + 1) <==> k in now {
      NewcomerStep(facts, writes, admits, i, j, k);
    }
  }

  lemma HeadKey(facts: seq<Fact>, key: Text)
    requires facts != []
    ensures HasKey(facts, key) <==> facts[0].key == key || HasKey(facts[1..], key)
  {
    ConsKeys(facts[0], facts[1..]);
    assert facts == [facts[0]] + facts[1..];
  }

  lemma {:induction false} RemoveSplit(a: seq<Fact>, b: seq<Fact>, key: Text)
    ensures Remove(a + b, key) == if HasKey(a, key) then Remove(a, key) + b else a + Remove(b, key)
  {
    if a == [] {
      assert a + b == b;
    } else {
      HeadKey(a, key);
      assert (a + b)[0] == a[0] && (a + b)[1..] == a[1..] + b;
      if a[0].key != key {
        RemoveSplit(a[1..], b, key);
        assert [a[0]] + (Remove(a[1..], key) + b) == ([a[0]] + Remove(a[1..], key)) + b;
        assert [a[0]] + (a[1..] + Remove(b, key)) == a + Remove(b, key);
      }
    }
  }

  lemma {:induction false} PutSplit(a: seq<Fact>, b: seq<Fact>, key: Text, value: Text)
    ensures Put(a + b, key, value) == if HasKey(a, key) then Put(a, key, value) + b else a + Put(b, key, value)
  {
    if a == [] {
      assert a + b == b;
    } else {
      HeadKey(a, key);
      assert (a + b)[0] == a[0] && (a + b)[1..] == a[1..] + b;
      if a[0].key == key {
        assert [Fact(key, value)] + (a[1..] + b) == ([Fact(key, value)] + a[1..]) + b;
      } else {
        PutSplit(a[1..], b, key, value);
        assert [a[0]] + (Put(a[1..], key, value) + b) == ([a[0]] + Put(a[1..], key, value)) + b;
        assert [a[0]] + (a[1..] + Put(b, key, value)) == a + Put(b, key, value);
      }
    }
  }

  lemma {:induction false} KeySetSize(facts: seq<Fact>)
    requires DistinctKeys(facts)
    ensures |KeySet(facts)| == |facts|
  {
    if facts != [] {
      assert facts == [facts[0]] + facts[1..];
      KeySetSize(facts[1..]);
      assert KeySet(facts) == {facts[0].key} + KeySet(facts[1..]);
    }
  }

  lemma HasKeyIsIn(facts: seq<Fact>, key: Text)
    ensures HasKey(facts, key) <==> key in KeySet(facts)
  {}

  /** What stands from a key on: the key, and the newcomers behind it. */
  ghost predicate EndsWith(facts: seq<Fact>, key: Text, late: set<Text>) {
    exists p | 0 <= p < |facts| :: facts[p].key == key && KeySet(facts[p + 1..]) == late
  }

  lemma EndsAt(before: seq<Fact>, f: Fact, late: seq<Fact>)
    ensures EndsWith(before + ([f] + late), f.key, KeySet(late))
  {
    var facts := before + ([f] + late);
    assert facts[|before|] == f && facts[|before| + 1..] == late;
  }

  lemma SuffixDistinct(before: seq<Fact>, f: Fact, late: seq<Fact>)
    requires DistinctKeys(before + ([f] + late))
    ensures DistinctKeys(late) && f.key !in KeySet(late)
    ensures KeySet(before) !! KeySet([f] + late)
  {
    var facts := before + ([f] + late);
    assert forall i | 0 <= i < |late| :: late[i] == facts[|before| + 1 + i];
    assert forall i | 0 <= i < |before| :: before[i] == facts[i];
    assert f == facts[|before|];
  }

  lemma Dropped(facts: seq<Fact>, p: nat, d: nat)
    requires DistinctKeys(facts) && p < d <= |facts|
    ensures !HasKey(facts[d..], facts[p].key)
  {
    forall g | g in facts[d..] ensures g.key != facts[p].key {
      var i :| 0 <= i < |facts[d..]| && facts[d..][i] == g;
      assert facts[d + i] == g;
    }
  }

  lemma KeptTail(before: seq<Fact>, f: Fact, late: seq<Fact>, d: nat)
    requires d <= |before|
    ensures EndsWith((before + ([f] + late))[d..], f.key, KeySet(late))
  {
    assert (before + ([f] + late))[d..] == before[d..] + ([f] + late);
    EndsAt(before[d..], f, late);
  }

  /** Eviction spares a key exactly when fewer than forty keys stand behind it. */
  lemma EvictedTail(before: seq<Fact>, f: Fact, late: seq<Fact>)
    requires DistinctKeys(before + ([f] + late))
    ensures var after := Evicted(before + ([f] + late));
            if |KeySet(late)| < MAX_PHYSICAL_FACTS then EndsWith(after, f.key, KeySet(late)) else !HasKey(after, f.key)
  {
    var facts := before + ([f] + late);
    SuffixDistinct(before, f, late);
    KeySetSize(late);
    var d := if |facts| <= MAX_PHYSICAL_FACTS then 0 else |facts| - MAX_PHYSICAL_FACTS;
    assert Evicted(facts) == facts[d..];
    if |late| < MAX_PHYSICAL_FACTS {
      KeptTail(before, f, late, d);
    } else {
      assert facts[|before|] == f;
      Dropped(facts, |before|, d);
    }
  }

  lemma RemovedTail(before: seq<Fact>, f: Fact, late: seq<Fact>, key: Text)
    requires DistinctKeys(before + ([f] + late))
    ensures var after := Remove(before + ([f] + late), key);
            if key == f.key then !HasKey(after, f.key) else EndsWith(after, f.key, KeySet(late) - {key})
  {
    SuffixDistinct(before, f, late);
    RemoveKeys(before + ([f] + late), key);
    if key != f.key {
      RemoveSplit(before, [f] + late, key);
      HasKeyIsIn(before, key);
      if HasKey(before, key) {
        assert KeySet(late) <= KeySet([f] + late);
        assert KeySet(late) - {key} == KeySet(late);
        EndsAt(Remove(before, key), f, late);
      } else {
        RemoveKeys(late, key);
        assert ([f] + late)[1..] == late;
        assert KeySet(Remove(late, key)) == KeySet(late) - {key} by { SameKeySet(late, Remove(late, key), key); }
        EndsAt(before, f, Remove(late, key));
      }
    }
  }

  lemma SameKeySet(facts: seq<Fact>, after: seq<Fact>, key: Text)
    requires forall k :: HasKey(after, k) <==> HasKey(facts, k) && k != key
    ensures KeySet(after) == KeySet(facts) - {key}
  {
    forall k ensures k in KeySet(after) <==> k in KeySet(facts) - {key} {
      HasKeyIsIn(after, k);
      HasKeyIsIn(facts, k);
    }
  }

  lemma PutBehind(late: seq<Fact>, key: Text, value: Text)
    requires DistinctKeys(late)
    ensures KeySet(Put(late, key, value)) == KeySet(late) + {key}
  {
    PutKeys(late, key, value);
    forall k ensures k in KeySet(Put(late, key, value)) <==> k in KeySet(late) + {key} {
      HasKeyIsIn(Put(late, key, value), k);
      HasKeyIsIn(late, k);
    }
  }

  /** Where a write puts its fact, seen from some other fact `f`. */
  lemma PutSpot(before: seq<Fact>, f: Fact, late: seq<Fact>, key: Text, value: Text)
    ensures Put(before + ([f] + late), key, value) ==
            if HasKey(before, key) then Put(before, key, value) + ([f] + late)
            else if key == f.key then before + ([Fact(key, value)] + late)
            else before + ([f] + Put(late, key, value))
  {
    PutSplit(before, [f] + late, key, value);
    assert ([f] + late)[1..] == late;
  }

  lemma KeySpot(before: seq<Fact>, f: Fact, late: seq<Fact>, key: Text)
    ensures HasKey(before + ([f] + late), key) <==> HasKey(before, key) || key == f.key || key in KeySet(late)
  {
    var facts := before + ([f] + late);
    assert f in facts;
    assert forall g :: g in facts <==> g in before || g == f || g in late;
  }

  lemma PutTail(before: seq<Fact>, f: Fact, late: seq<Fact>, key: Text, value: Text)
    requires DistinctKeys(before + ([f] + late))
    ensures var facts := before + ([f] + late);
            var now := if HasKey(facts, key) then KeySet(late) else KeySet(late) + {key};
            var after := Evicted(Put(facts, key, value));
            if |now| < MAX_PHYSICAL_FACTS then EndsWith(after, f.key, now) else !HasKey(after, f.key)
  {
    var facts := before + ([f] + late);
    SuffixDistinct(before, f, late);
    PutKeys(facts, key, value);
    PutSpot(before, f, late, key, value);
    KeySpot(before, f, late, key);
    if HasKey(before, key) {
      EvictedTail(Put(before, key, value), f, late);
    } else if key == f.key {
      EvictedTail(before, Fact(key, value), late);
    } else {
      PutBehind(late, key, value);
      assert key in KeySet(late) ==> KeySet(late) + {key} == KeySet(late);
      EvictedTail(before, f, Put(late, key, value));
    }
  }

  lemma FactsAt(facts: seq<Fact>, key: Text, late: set<Text>) returns (before: seq<Fact>, f: Fact, behind: seq<Fact>)
    requires EndsWith(facts, key, late)
    ensures facts == before + ([f] + behind) && f.key == key && KeySet(behind) == late
  {
    var p :| 0 <= p < |facts| && facts[p].key == key && KeySet(facts[p + 1..]) == late;
    before, f, behind := facts[..p], facts[p], facts[p + 1..];
  }

  /** One write: a key with its newcomers behind it stays, unless the write removes it or makes them forty. */
  lemma TailStep(facts: seq<Fact>, key: Text, late: set<Text>, w: FactWrite, admits: Admission)
    requires DistinctKeys(facts) && EndsWith(facts, key, late) && |late| < MAX_PHYSICAL_FACTS
    ensures var after := WriteFact(facts, w, admits);
            var now := NewcomersAfter(late, facts, w, admits);
            if (w.key == key ==> w.value.Some?) && |now| < MAX_PHYSICAL_FACTS then EndsWith(after, key, now)
            else !HasKey(after, key)
  {
    var before, f, behind := FactsAt(facts, key, late);
    if w.value.None? {
      RemovedTail(before, f, behind, w.key);
      FewerKeys(late, w.key);
    } else if HasKey(facts, w.key) || admits(w.key, facts) {
      PutTail(before, f, behind, w.key, w.value.value);
    }
  }

  lemma FewerKeys(late: set<Text>, key: Text)
    ensures |late - {key}| <= |late|
  {
    if key in late { assert late == (late - {key}) + {key}; } else { assert late - {key} == late; }
  }

  lemma {:induction false} WritesDistinct(facts: seq<Fact>, writes: seq<FactWrite>, admits: Admission)
    requires DistinctKeys(facts)
    ensures DistinctKeys(WriteFacts(facts, writes, admits))
  {
    if writes != [] {
      var n := |writes| - 1;
      WritesDistinct(facts, writes[..n], admits);
      WriteKeys(WriteFacts(facts, writes[..n], admits), writes[n], admits);
    }
  }

  lemma WritesSnoc(facts: seq<Fact>, writes: seq<FactWrite>, admits: Admission, j: nat)
    requires j < |writes|
    ensures WriteFacts(facts, writes[..j + 1], admits) == WriteFact(WriteFacts(facts, writes[..j], admits), writes[j], admits)
  {
    assert writes[..j + 1][..j] == writes[..j];
  }

  /** After the first `j` writes the key of write `i` stands with its newcomers behind it. */
  ghost predicate Stands(facts: seq<Fact>, writes: seq<FactWrite>, admits: Admission, i: nat, j: nat)
    requires i < j <= |writes|
  {
    EndsWith(WriteFacts(facts, writes[..j], admits), writes[i].key, Newcomers(facts, writes, admits, i, j))
  }

  ghost predicate Present(facts: seq<Fact>, writes: seq<FactWrite>, admits: Admission, key: Text, j: nat)
    requires j <= |writes|
  {
    HasKey(WriteFacts(facts, writes[..j], admits), key)
  }

  lemma StandsIsPresent(facts: seq<Fact>, writes: seq<FactWrite>, admits: Admission, i: nat, j: nat)
    requires i < j <= |writes| && Stands(facts, writes, admits, i, j)
    ensures Present(facts, writes, admits, writes[i].key, j)
  {
    var after := WriteFacts(facts, writes[..j], admits);
    var p :| 0 <= p < |after| && after[p].key == writes[i].key;
    assert after[p] in after;
  }

  lemma Entry(facts: seq<Fact>, writes: seq<FactWrite>, admits: Admission, i: nat)
    requires i < |writes| && DistinctKeys(facts) && Enters(facts, writes, admits, i)
    ensures Settles(facts, writes, admits, i, i + 1) && Stands(facts, writes, admits, i, i + 1)
  {
    var before := WriteFacts(facts, writes[..i], admits);
    var f := Fact(writes[i].key, writes[i].value.value);
    WritesSnoc(facts, writes, admits, i);
    WritesDistinct(facts, writes[..i], admits);
    PutNew(before, f.key, f.value);
    SnocDistinct(before, f);
    assert before + [f] == before + ([f] + []);
    EvictedTail(before, f, []);
    assert KeySet([]) == {} && Newcomers(facts, writes, admits, i, i + 1) == {};
  }

  lemma SettlesShorter(facts: seq<Fact>, writes: seq<FactWrite>, admits: Admission, i: nat, j: nat)
    requires i < j < |writes|
    ensures Settles(facts, writes, admits, i, j + 1) <==>
      && Settles(facts, writes, admits, i, j)
      && (writes[j].key == writes[i].key ==> writes[j].value.Some?)
      && |Newcomers(facts, writes, admits, i, j + 1)| < MAX_PHYSICAL_FACTS
  {
  }

  /** A key with its newcomers behind it, from one write to the next. */
  lemma SettledStep(facts: seq<Fact>, writes: seq<FactWrite>, admits: Admission, i: nat, j: nat)
    requires i < j < |writes| && DistinctKeys(facts)
    requires Settles(facts, writes, admits, i, j) && Stands(facts, writes, admits, i, j)
    ensures if Settles(facts, writes, admits, i, j + 1) then Stands(facts, writes, admits, i, j + 1)
            else !Present(facts, writes, admits, writes[i].key, j + 1)
  {
    SettlesShorter(facts, writes, admits, i, j);
    WritesDistinct(facts, writes[..j], admits);
    WritesSnoc(facts, writes, admits, j);
    NewcomersStep(facts, writes, admits, i, j);
    TailStep(WriteFacts(facts, writes[..j], admits), writes[i].key, Newcomers(facts, writes, admits, i, j), writes[j], admits);
  }

  lemma {:induction false} SettledStands(facts: seq<Fact>, writes: seq<FactWrite>, admits: Admission, i: nat, j: nat)
    requires i < j <= |writes| && DistinctKeys(facts) && Settles(facts, writes, admits, i, j)
    ensures Stands(facts, writes, admits, i, j)
    decreases j
  {
    if j == i + 1 {
      Entry(facts, writes, admits, i);
    } else {
      var k := j - 1;
      assert Settles(facts, writes, admits, i, k) by { SettlesShorter(facts, writes, admits, i, k); }
      SettledStands(facts, writes, admits, i, k);
      assert Settles(facts, writes, admits, i, k + 1);
      SettledStep(facts, writes, admits, i, k);
    }
  }

  /** A key that appears with a write enters with it. */
  lemma Appears(facts: seq<Fact>, writes: seq<FactWrite>, admits: Admission, key: Text, j: nat)
    requires j < |writes| && DistinctKeys(facts)
    requires !Present(facts, writes, admits, key, j) && Present(facts, writes, admits, key, j + 1)
    ensures writes[j].key == key && Enters(facts, writes, admits, j)
  {
    WritesSnoc(facts, writes, admits, j);
    WritesDistinct(facts, writes[..j], admits);
    WriteKeys(WriteFacts(facts, writes[..j], admits), writes[j], admits);
  }

  lemma {:induction false} PresentSettled(facts: seq<Fact>, writes: seq<FactWrite>, admits: Admission, key: Text, j: nat)
    returns (i: nat)
    requires j <= |writes| && DistinctKeys(facts) && !HasKey(facts, key) && Present(facts, writes, admits, key, j)
    ensures i < j && writes[i].key == key && Settles(facts, writes, admits, i, j)
    decreases j
  {
    assert writes[..0] == [];
    var k := j - 1;
    if Present(facts, writes, admits, key, k) {
      i := PresentSettled(facts, writes, admits, key, k);
      SettledStands(facts, writes, admits, i, k);
      SettledStep(facts, writes, admits, i, k);
    } else {
      i := k;
      Appears(facts, writes, admits, key, k);
      Entry(facts, writes, admits, k);
    }
  }

  /** Exactly which new keys a scene of any size ends up with: those that enter, are not removed later, and
      never have forty newcomers behind them. */
  lemma NewKeySettled(facts: seq<Fact>, writes: seq<FactWrite>, admits: Admission, key: Text)
    requires DistinctKeys(facts) && !HasKey(facts, key)
    ensures HasKey(WriteFacts(facts, writes, admits), key) <==>
            exists i | 0 <= i < |writes| :: writes[i].key == key && Settles(facts, writes, admits, i, |writes|)
  {
    assert writes[..|writes|] == writes;
    if HasKey(WriteFacts(facts, writes, admits), key) {
      var i := PresentSettled(facts, writes, admits, key, |writes|);
    }
    if i :| 0 <= i < |writes| && writes[i].key == key && Settles(facts, writes, admits, i, |writes|) {
      SettledStands(facts, writes, admits, i, |writes|);
      StandsIsPresent(facts, writes, admits, i, |writes|);
    }
  }

  function WrittenKeys(writes: seq<FactWrite>): set<Text> {
    set w | w in writes :: w.key
  }

  lemma {:induction false} WrittenSize(writes: seq<FactWrite>)
    ensures |WrittenKeys(writes)| <= |writes|
  {
    if writes != [] {
      WrittenSize(writes[1..]);
      assert writes == [writes[0]] + writes[1..];
      assert WrittenKeys(writes) == WrittenKeys(writes[1..]) + {writes[0].key};
    }
  }

  lemma NewcomersWritten(facts: seq<Fact>, writes: seq<FactWrite>, admits: Admission, i: nat, j: nat)
    requires i < j <= |writes|
    ensures Newcomers(facts, writes, admits, i, j) <= WrittenKeys(writes[i + 1..j])
  {
    forall k | k in Newcomers(facts, writes, admits, i, j) ensures k in WrittenKeys(writes[i + 1..j]) {
      var m := NewcomerFrom(facts, writes, admits, i, j, k);
      assert writes[i + 1..j][m - i - 1] == writes[m];
    }
  }

  lemma {:induction false} SmallerSet(a: set<Text>, b: set<Text>)
    requires a <= b
    ensures |a| <= |b|
  {
    if x :| x in a { SmallerSet(a - {x}, b - {x}); }
  }

  /** Each write brings one newcomer at most. */
  lemma FewNewcomers(facts: seq<Fact>, writes: seq<FactWrite>, admits: Admission, i: nat, j: nat)
    requires i < j <= |writes|
    ensures |Newcomers(facts, writes, admits, i, j)| < j - i
  {
    NewcomersWritten(facts, writes, admits, i, j);
    WrittenSize(writes[i + 1..j]);
    SmallerSet(Newcomers(facts, writes, admits, i, j), WrittenKeys(writes[i + 1..j]));
  }

  lemma ShortSettles(facts: seq<Fact>, writes: seq<FactWrite>, admits: Admission, i: nat)
    requires i < |writes| <= MAX_PHYSICAL_FACTS
    ensures Settles(facts, writes, admits, i, |writes|) <==> Enters(facts, writes, admits, i) && Stays(writes, i, |writes|)
  {
    forall l | i < l <= |writes| ensures |Newcomers(facts, writes, admits, i, l)| < MAX_PHYSICAL_FACTS {
      FewNewcomers(facts, writes, admits, i, l);
    }
  }

  /** An update of at most forty writes crowds out none of its own keys, however full the scene: its new keys are
      those that enter and are not removed later. */
  lemma NewKeyStays(facts: seq<Fact>, writes: seq<FactWrite>, admits: Admission, key: Text)
    requires DistinctKeys(facts) && !HasKey(facts, key) && |writes| <= MAX_PHYSICAL_FACTS
    ensures HasKey(WriteFacts(facts, writes, admits), key) <==>
            exists i | 0 <= i < |writes| ::
              writes[i].key == key && Enters(facts, writes, admits, i) && Stays(writes, i, |writes|)
  {
    NewKeySettled(facts, writes, admits, key);
    forall i | 0 <= i < |writes|
      ensures Settles(facts, writes, admits, i, |writes|) <==> Enters(facts, writes, admits, i) && Stays(writes, i, |writes|)
    {
      ShortSettles(facts, writes, admits, i);
    }
  }

  // ---- the values ----------------------------------------------------------

  /** The latest write of a key. */
  function LastWrite(writes: seq<FactWrite>, key: Text): Option<FactWrite> {
    if writes == [] then None
    else if writes[|writes| - 1].key == key then Some(writes[|writes| - 1])
    else LastWrite(writes[..|writes| - 1], key)
  }

  lemma {:induction false} PutExact(facts: seq<Fact>, key: Text, value: Text, f: Fact)
    requires DistinctKeys(facts)
    ensures f in Put(facts, key, value) <==> f == Fact(key, value) || (f in facts && f.key != key)
  {
    if facts != [] {
      assert facts == [facts[0]] + facts[1..];
      assert DistinctKeys(facts[1..]);
      if facts[0].key != key {
        PutExact(facts[1..], key, value, f);
      } else if f in facts[1..] {
        var j :| 0 <= j < |facts[1..]| && facts[1..][j] == f;
        assert facts[j + 1] == f;
      }
    }
  }

  lemma {:induction false} RemoveExact(facts: seq<Fact>, key: Text, f: Fact)
    requires DistinctKeys(facts)
    ensures f in Remove(facts, key) <==> f in facts && f.key != key
  {
    if facts != [] {
      assert facts == [facts[0]] + facts[1..];
      assert DistinctKeys(facts[1..]);
      if facts[0].key != key {
        RemoveExact(facts[1..], key, f);
      } else if f in facts[1..] {
        var j :| 0 <= j < |facts[1..]| && facts[1..][j] == f;
        assert facts[j + 1] == f;
      }
    }
  }

  /** One write on one fact: it is there with the value just written, or it was there under another key. */
  lemma WriteExact(facts: seq<Fact>, w: FactWrite, admits: Admission, f: Fact)
    requires DistinctKeys(facts) && f in WriteFact(facts, w, admits)
    ensures if f.key == w.key then w.value == Some(f.value) else f in facts
  {
    if w.value.None? {
      RemoveExact(facts, w.key, f);
    } else if HasKey(facts, w.key) || admits(w.key, facts) {
      assert f in Put(facts, w.key, w.value.value);
      PutExact(facts, w.key, w.value.value, f);
    }
  }

  /** Whatever is written, removed, refused or evicted, a fact that is still there carries the value of the
      last write of its key, or its old value where no write named it. */
  lemma {:induction false} LastWriteWins(facts: seq<Fact>, writes: seq<FactWrite>, admits: Admission, f: Fact)
    requires DistinctKeys(facts) && f in WriteFacts(facts, writes, admits)
    ensures match LastWrite(writes, f.key)
            case None => f in facts
            case Some(w) => w.value == Some(f.value)
  {
    if writes != [] {
      var n := |writes| - 1;
      WritesDistinct(facts, writes[..n], admits);
      WriteExact(WriteFacts(facts, writes[..n], admits), writes[n], admits, f);
      if writes[n].key != f.key { LastWriteWins(facts, writes[..n], admits, f); }
    }
  }

  lemma WriteKeepsKey(facts: seq<Fact>, w: FactWrite, admits: Admission, key: Text)
    requires DistinctKeys(facts) && HasKey(facts, key) && (w.key == key ==> w.value.Some?)
    requires |facts| < MAX_PHYSICAL_FACTS
    ensures HasKey(WriteFact(facts, w, admits), key) && |WriteFact(facts, w, admits)| <= |facts| + 1
  {
    if w.value.None? {
      RemoveKeys(facts, w.key);
      RemoveSize(facts, w.key);
    } else {
      PutKeys(facts, w.key, w.value.value);
      PutSize(facts, w.key, w.value.value);
    }
  }

  /** With room for every write, a key of the scene is lost only to a write that removes it. */
  lemma {:induction false} NothingIsLost(facts: seq<Fact>, writes: seq<FactWrite>, admits: Admission, key: Text)
    requires DistinctKeys(facts) && |facts| + |writes| <= MAX_PHYSICAL_FACTS
    requires HasKey(facts, key) && forall w | w in writes && w.key == key :: w.value.Some?
    ensures HasKey(WriteFacts(facts, writes, admits), key)
    ensures |WriteFacts(facts, writes, admits)| <= |facts| + |writes|
  {
    if writes != [] {
      var n := |writes| - 1;
      assert writes == writes[..n] + [writes[n]];
      NothingIsLost(facts, writes[..n], admits, key);
      WritesDistinct(facts, writes[..n], admits);
      WriteKeepsKey(WriteFacts(facts, writes[..n], admits), writes[n], admits, key);
    }
  }
}
