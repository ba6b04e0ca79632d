/** The autonomous burst: which beats are committed, which events are kept, who is voiced. */
module Burst {
  import opened Text

  const MAX_SKIP_TICKS := 8

  /** What one beat would bring: the normalized queue, the Director's flag and events, how many routed
      characters answered, the requested time skip with its stripped summary, and whether the beat left a
      record or changed the scene. */
  datatype Take = Take(
    queue: seq<string>, returnControl: bool, events: seq<Text>, replies: nat, ticks: int, summary: Text, marked: bool)

  /** The ticks `_apply_time_skip` grants. */
  function Skipped(t: Take): (n: nat)
    ensures n as int == if t.ticks < 0 then 0 else if t.ticks > 8 then 8 else t.ticks
  {
    if t.ticks <= 0 then 0 else if t.ticks >= MAX_SKIP_TICKS then MAX_SKIP_TICKS else t.ticks
  }

  /** The summary of a granted time skip joins the beat's events after the repetition filter has run. */
  predicate TellsSkip(t: Take) {
    Skipped(t) > 0 && t.summary != []
  }

  /** Nothing new happened: no event was left and no skip is told. */
  predicate Eventless(t: Take) {
    t.events == [] && !TellsSkip(t)
  }

  /** A beat that left no record, changed no scene and asked for no skip never happened. */
  predicate Traced(t: Take) {
    t.marked || t.ticks != 0
  }

  /** The first `n` takes all left a trace. */
  predicate AllTraced(takes: seq<Take>, n: nat)
    requires n <= |takes|
  {
    n == 0 || (Traced(takes[n - 1]) && AllTraced(takes, n - 1))
  }

  lemma {:induction false} TracedAt(takes: seq<Take>, n: nat, i: nat)
    requires i < n <= |takes| && AllTraced(takes, n)
    ensures takes[i].marked || takes[i].ticks != 0
  {
    if i < n - 1 { TracedAt(takes, n - 1, i); }
  }

  type Repeats = (Text, Text) -> bool

  datatype StopReason = BudgetExhausted | ProducedNothing | PlayerAddressed | ProtagonistDecision | BeatSettled

  predicate RepeatsAny(e: Text, told: seq<Text>, repeats: Repeats) {
    exists t | t in told :: repeats(e, t)
  }

  function Novel(events: seq<Text>, told: seq<Text>, repeats: Repeats): seq<Text> {
    if events == [] then []
    else
      var n := |events| - 1;
      Novel(events[..n], told, repeats) + if RepeatsAny(events[n], told, repeats) then [] else [events[n]]
  }

  /** Exactly the events that repeat nothing told are kept. */
  lemma {:induction false} NovelExact(events: seq<Text>, told: seq<Text>, repeats: Repeats)
    ensures forall e :: e in Novel(events, told, repeats) <==> e in events && !RepeatsAny(e, told, repeats)
  {
    if events != [] {
      var n := |events| - 1;
      NovelExact(events[..n], told, repeats);
      assert events == events[..n] + [events[n]];
    }
  }

  /** The stop rule on the beats kept so far, read off the last of them. */
  ghost predicate Settles(beats: seq<Take>, controlled: string, multi: bool)
    requires beats != []
  {
    var b := beats[|beats| - 1];
    || controlled in b.queue
    || b.returnControl
    || (b.replies == 0 && multi && Eventless(b))
    || (b.replies == 0 && |beats| >= 2 && beats[|beats| - 2].replies == 0)
  }

  /** No beat of the list settled the burst when it was the last. */
  ghost predicate NeverSettled(beats: seq<Take>, controlled: string, multi: bool) {
    beats == [] || (NeverSettled(beats[..|beats| - 1], controlled, multi) && !Settles(beats, controlled, multi))
  }

  /** Every event text the repetition filter remembers: the kept events, no summaries. */
  function EventsOf(beats: seq<Take>): seq<Text> {
    if beats == [] then [] else EventsOf(beats[..|beats| - 1]) + beats[|beats| - 1].events
  }

  /** The first n takes as they are committed: in a burst, without the events told before. */
  function KeptBeats(takes: seq<Take>, n: nat, multi: bool, repeats: Repeats): (r: seq<Take>)
    requires n <= |takes|
    ensures |r| == n
  {
    if n == 0 then []
    else
      var before := KeptBeats(takes, n - 1, multi, repeats);
      var t := takes[n - 1];
      before + [Committed(t, EventsOf(before), multi, repeats)]
  }

  lemma {:induction false} EventsOfMember(beats: seq<Take>, i: nat, t: Text)
    requires i < |beats| && t in beats[i].events
    ensures t in EventsOf(beats)
  {
    if i < |beats| - 1 { EventsOfMember(beats[..|beats| - 1], i, t); }
  }

  lemma {:induction false} EventsFrom(beats: seq<Take>, t: Text)
    requires t in EventsOf(beats)
    ensures exists i :: 0 <= i < |beats| && t in beats[i].events
  {
    var n := |beats| - 1;
    if t in EventsOf(beats[..n]) {
      EventsFrom(beats[..n], t);
      var i :| 0 <= i < n && t in beats[..n][i].events;
      assert t in beats[i].events;
    } else {
      assert t in beats[n].events;
    }
  }

  /** The event repeats none that these beats kept. */
  ghost predicate NewTo(e: Text, beats: seq<Take>, repeats: Repeats) {
    forall i, t | 0 <= i < |beats| && t in beats[i].events :: !repeats(e, t)
  }

  lemma NovelIsNew(events: seq<Text>, beats: seq<Take>, e: Text, repeats: Repeats)
    ensures e in Novel(events, EventsOf(beats), repeats) <==> e in events && NewTo(e, beats, repeats)
  {
    NovelExact(events, EventsOf(beats), repeats);
    forall i, t | 0 <= i < |beats| && t in beats[i].events ensures t in EventsOf(beats) {
      EventsOfMember(beats, i, t);
    }
    if RepeatsAny(e, EventsOf(beats), repeats) {
      var t :| t in EventsOf(beats) && repeats(e, t);
      EventsFrom(beats, t);
    }
  }

  lemma {:induction false} KeptPrefix(takes: seq<Take>, n: nat, j: nat, multi: bool, repeats: Repeats)
    requires j < n <= |takes|
    ensures var beats, before := KeptBeats(takes, n, multi, repeats), KeptBeats(takes, j, multi, repeats);
            beats[..j] == before && beats[j] == Committed(takes[j], EventsOf(before), multi, repeats)
    decreases n
  {
    KeptNext(takes, n - 1, multi, repeats);
    SnocParts(KeptBeats(takes, n - 1, multi, repeats), KeptBeats(takes, n, multi, repeats), j);
    if j < n - 1 { KeptPrefix(takes, n - 1, j, multi, repeats); }
  }

  lemma SnocParts(init: seq<Take>, all: seq<Take>, j: nat)
    requires |all| == |init| + 1 && all[..|init|] == init && j <= |init|
    ensures all[..j] == init[..j] && (j < |init| ==> all[j] == init[j])
  {
  }

  /** In a burst a beat keeps an event exactly when it brought it and the event repeats none that an earlier
      beat kept; everything else about the beat is as it came. */
  lemma NothingToldTwice(takes: seq<Take>, n: nat, repeats: Repeats, j: nat, e: Text)
    requires j < n <= |takes|
    ensures var beats := KeptBeats(takes, n, true, repeats);
            && beats[j] == takes[j].(events := beats[j].events)
            && (e in beats[j].events <==> e in takes[j].events && NewTo(e, beats[..j], repeats))
  {
    KeptPrefix(takes, n, j, true, repeats);
    NovelIsNew(takes[j].events, KeptBeats(takes, j, true, repeats), e, repeats);
  }

  /** The kept events of a beat stand in the order they came in, one by one. */
  lemma {:induction false} NovelInOrder(earlier: seq<Text>, later: seq<Text>, told: seq<Text>, repeats: Repeats)
    ensures Novel(earlier + later, told, repeats) == Novel(earlier, told, repeats) + Novel(later, told, repeats)
  {
    if later == [] {
      assert earlier + later == earlier;
    } else {
      var n := |later| - 1;
      var all := earlier + later;
      assert all[..|all| - 1] == earlier + later[..n];
      NovelInOrder(earlier, later[..n], told, repeats);
    }
  }

  /** A take as it is committed after the beats of `told`. */
  function Committed(t: Take, told: seq<Text>, multi: bool, repeats: Repeats): Take {
    if multi then t.(events := Novel(t.events, told, repeats)) else t
  }

  lemma KeptNext(takes: seq<Take>, n: nat, multi: bool, repeats: Repeats)
    requires n < |takes|
    ensures var before := KeptBeats(takes, n, multi, repeats);
            && KeptBeats(takes, n + 1, multi, repeats) == before + [Committed(takes[n], EventsOf(before), multi, repeats)]
            && KeptBeats(takes, n + 1, multi, repeats)[..n] == before
  {
  }

  lemma SnocBeats(earlier: seq<Take>, b: Take)
    ensures (earlier + [b])[..|earlier|] == earlier && (earlier + [b])[|earlier|] == b
    ensures EventsOf(earlier + [b]) == EventsOf(earlier) + b.events
  {
    assert (earlier + [b])[..|earlier + [b]| - 1] == earlier;
  }

  /** Time-skip summaries are neither filtered nor remembered: two skips with one summary tell it twice. A
      summary does keep a beat without events and replies from settling the burst on the spot. */
  lemma SummariesEscape(t: Take, repeats: Repeats, controlled: string)
    requires t.events == [] && Skipped(t) > 0 && t.summary != []
    requires controlled !in t.queue && !t.returnControl
    ensures KeptBeats([t, t], 2, true, repeats) == [t, t] && TellsSkip(t)
    ensures !Settles([t], controlled, true)
  {
    assert Novel([], [], repeats) == [] && t.(events := []) == t;
    KeptNext([t, t], 0, true, repeats);
    KeptNext([t, t], 1, true, repeats);
    assert KeptBeats([t, t], 0, true, repeats) == [];
    assert EventsOf([t]) == [] by { assert [t][..0] == []; }
  }

  /** `beats` are the first takes as they are kept, and `told` holds their events. */
  ghost predicate KeptSoFar(takes: seq<Take>, beats: seq<Take>, told: seq<Text>, multi: bool, repeats: Repeats) {
    |beats| <= |takes| && beats == KeptBeats(takes, |beats|, multi, repeats) && told == EventsOf(beats)
  }

  /** What a beat that settles a burst is said to have done: the player comes before the Director's flag. */
  function ReasonOf(b: Take, controlled: string): StopReason {
    if controlled in b.queue then PlayerAddressed else if b.returnControl then ProtagonistDecision else BeatSettled
  }

  /** Why a burst ended: out of beats, nothing produced, or the last beat and no earlier one settled it. */
  ghost predicate Ended(reason: StopReason, takes: seq<Take>, beats: seq<Take>, maxBeats: nat, controlled: string) {
    && |beats| <= maxBeats <= |takes|
    && match reason
       case BudgetExhausted => |beats| == maxBeats && NeverSettled(beats, controlled, maxBeats > 1)
       case ProducedNothing =>
         |beats| < maxBeats && !Traced(takes[|beats|]) && NeverSettled(beats, controlled, maxBeats > 1)
       case _ =>
         && beats != [] && NeverSettled(beats[..|beats| - 1], controlled, maxBeats > 1)
         && Settles(beats, controlled, maxBeats > 1)
         && reason == ReasonOf(beats[|beats| - 1], controlled)
  }

  lemma {:induction false} NeverSettledAt(beats: seq<Take>, controlled: string, multi: bool, i: nat)
    requires NeverSettled(beats, controlled, multi) && i < |beats|
    ensures !Settles(beats[..i + 1], controlled, multi)
  {
    if i < |beats| - 1 {
      NeverSettledAt(beats[..|beats| - 1], controlled, multi, i);
      assert beats[..|beats| - 1][..i + 1] == beats[..i + 1];
    } else {
      assert beats[..i + 1] == beats;
    }
  }

  /** The beat at `i` leaves the burst running: the player was not addressed, control was not handed back,
      and somebody answered, or else something new happened or was told and somebody had answered before. */
  predicate Runs(beats: seq<Take>, controlled: string, multi: bool, i: nat)
    requires i < |beats|
  {
    var b := beats[i];
    && controlled !in b.queue && !b.returnControl
    && (b.replies > 0 || ((!multi || b.events != [] || (b.ticks > 0 && b.summary != []))
                          && (i == 0 || beats[i - 1].replies > 0)))
  }

  /** Every beat before the last left the burst running, and the last one did exactly where the burst ended
      for want of beats or of anything to commit. */
  lemma BeatsBeforeTheEnd(reason: StopReason, takes: seq<Take>, beats: seq<Take>, maxBeats: nat, controlled: string, i: nat)
    requires Ended(reason, takes, beats, maxBeats, controlled) && i < |beats|
    ensures i < |beats| - 1 || reason.BudgetExhausted? || reason.ProducedNothing? <==> Runs(beats, controlled, maxBeats > 1, i)
    ensures reason.PlayerAddressed? ==> controlled in beats[|beats| - 1].queue
    ensures reason.ProtagonistDecision? ==> controlled !in beats[|beats| - 1].queue && beats[|beats| - 1].returnControl
    ensures reason.BeatSettled? ==> controlled !in beats[|beats| - 1].queue && !beats[|beats| - 1].returnControl
  {
    var multi := maxBeats > 1;
    if reason.BudgetExhausted? || reason.ProducedNothing? {
      NeverSettledAt(beats, controlled, multi, i);
    } else if i < |beats| - 1 {
      NeverSettledAt(beats[..|beats| - 1], controlled, multi, i);
      assert beats[..|beats| - 1][..i + 1] == beats[..i + 1];
    } else {
      assert beats[..i + 1] == beats;
    }
    assert beats[..i + 1][i] == beats[i];
  }

  /** A burst stops for want of anything to commit exactly at the first take without a record, a scene change or
      a time skip. */
  lemma NothingToCommit(reason: StopReason, takes: seq<Take>, beats: seq<Take>, maxBeats: nat, controlled: string, i: nat)
    requires Ended(reason, takes, beats, maxBeats, controlled) && AllTraced(takes, |beats|)
    ensures i < |beats| ==> takes[i].marked || takes[i].ticks != 0
    ensures reason.ProducedNothing? ==> |beats| < maxBeats && !takes[|beats|].marked && takes[|beats|].ticks == 0
  {
    if i < |beats| { TracedAt(takes, |beats|, i); }
  }

  lemma KeptGrows(takes: seq<Take>, beats: seq<Take>, told: seq<Text>, multi: bool, repeats: Repeats)
    requires KeptSoFar(takes, beats, told, multi, repeats) && |beats| < |takes|
    ensures var b := Committed(takes[|beats|], told, multi, repeats);
            KeptSoFar(takes, beats + [b], told + b.events, multi, repeats)
  {
    KeptNext(takes, |beats|, multi, repeats);
    SnocBeats(beats, Committed(takes[|beats|], told, multi, repeats));
  }

  class BurstState {
    var beats: seq<Take>  // committed beats, with the events that were kept
    var eventTexts: seq<Text>
    var narratorOnlyStreak: nat
    var stopReason: StopReason

    constructor ()
      ensures beats == [] && eventTexts == [] && narratorOnlyStreak == 0 && stopReason == BudgetExhausted
    {
      beats, eventTexts, narratorOnlyStreak, stopReason := [], [], 0, BudgetExhausted;
    }

    /** The streak counts the trailing beats nobody answered. */
    ghost predicate StreakExact()
      reads this
    {
      narratorOnlyStreak == if beats != [] && beats[|beats| - 1].replies == 0 then 1 else 0
    }

    /** `_beat_settled` for the beat just appended. */
    method BeatSettled(controlled: string, multi: bool) returns (settled: bool)
      requires beats != []
      requires narratorOnlyStreak == if |beats| >= 2 && beats[|beats| - 2].replies == 0 then 1 else 0
      modifies this`narratorOnlyStreak, this`stopReason
      ensures settled <==> Settles(beats, controlled, multi)
      ensures !settled ==> StreakExact() && stopReason == old(stopReason)
      ensures settled ==> stopReason == ReasonOf(beats[|beats| - 1], controlled)
    {
      var b := beats[|beats| - 1];
      if controlled in b.queue {
        stopReason := PlayerAddressed;
        return true;
      }
      if b.returnControl {
        stopReason := ProtagonistDecision;
        return true;
      }
      if b.replies > 0 {
        narratorOnlyStreak := 0;
        return false;
      }
      if multi && Eventless(b) {
        stopReason := StopReason.BeatSettled;
        return true;
      }
      narratorOnlyStreak := narratorOnlyStreak + 1;
      if narratorOnlyStreak >= 2 {
        stopReason := StopReason.BeatSettled;
        return true;
      }
      return false;
    }

    /** The next take without the events told before. */
    method NextKept(takes: seq<Take>, multi: bool, repeats: Repeats) returns (kept: Take)
      requires KeptSoFar(takes, beats, eventTexts, multi, repeats) && |beats| < |takes|
      ensures KeptSoFar(takes, beats + [kept], eventTexts + kept.events, multi, repeats)
    {
      kept := Committed(takes[|beats|], eventTexts, multi, repeats);
      KeptGrows(takes, beats, eventTexts, multi, repeats);
    }

    /** One beat that left a trace joins the others, and the stop rule looks at it. */
    method PlayOne(takes: seq<Take>, controlled: string, multi: bool, repeats: Repeats) returns (settled: bool)
      requires KeptSoFar(takes, beats, eventTexts, multi, repeats) && |beats| < |takes|
      requires StreakExact() && stopReason == BudgetExhausted
      modifies this
      ensures |beats| == old(|beats|) + 1 && beats[..|beats| - 1] == old(beats)
      ensures KeptSoFar(takes, beats, eventTexts, multi, repeats)
      ensures settled <==> Settles(beats, controlled, multi)
      ensures !settled ==> StreakExact() && stopReason == BudgetExhausted
      ensures settled ==> stopReason == ReasonOf(beats[|beats| - 1], controlled)
    {
      var kept := NextKept(takes, multi, repeats);
      Append(kept);
      settled := BeatSettled(controlled, multi);
    }

    /** The loop of `player_turn`. `takes` is what the beats would be, one after the other. */
    method Play(takes: seq<Take>, maxBeats: nat, controlled: string, repeats: Repeats)
      requires 1 <= maxBeats <= |takes|
      requires beats == [] && eventTexts == [] && narratorOnlyStreak == 0 && stopReason == BudgetExhausted
      modifies this
      ensures KeptSoFar(takes, beats, eventTexts, maxBeats > 1, repeats)
      ensures Ended(stopReason, takes, beats, maxBeats, controlled)
      ensures AllTraced(takes, |beats|)
    {
      var multi := maxBeats > 1;
      var i := 0;
      while i < maxBeats
        invariant 0 <= i <= maxBeats && |beats| == i
        invariant KeptSoFar(takes, beats, eventTexts, multi, repeats)
        invariant NeverSettled(beats, controlled, multi)
        invariant StreakExact() && stopReason == BudgetExhausted
        invariant AllTraced(takes, i)
      {
        if !Traced(takes[i]) {
          stopReason := ProducedNothing;
          return;
        }
        var settled := PlayOne(takes, controlled, multi, repeats);
        if settled { return; }
        i := i + 1;
      }
    }

    method Append(b: Take)
      modifies this`beats, this`eventTexts
      ensures beats == old(beats) + [b] && eventTexts == old(eventTexts) + b.events
    {
      beats := beats + [b];
      eventTexts := eventTexts + b.events;
    }
  }

  // ---- speakers ------------------------------------------------------------

  /** Everyone the runner voices: the queue up to the controlled character, absent ones left out. */
  function Voiced(queue: seq<string>, controlled: string, here: set<string>): seq<string> {
    if queue == [] || queue[0] == controlled then []
    else (if queue[0] in here then [queue[0]] else []) + Voiced(queue[1..], controlled, here)
  }

  method RunSpeakerQueue(queue: seq<string>, controlled: string, here: set<string>) returns (responses: seq<string>)
    ensures responses == Voiced(queue, controlled, here)
  {
    responses := [];
    var i := 0;
    while i < |queue| && queue[i] != controlled
      invariant 0 <= i <= |queue|
      invariant Voiced(queue, controlled, here) == responses + Voiced(queue[i..], controlled, here)
    {
      if queue[i] in here {
        responses := responses + [queue[i]];
      }
      assert queue[i..][1..] == queue[i + 1..];
      i := i + 1;
    }
  }

  /** Speakers are voiced in the order of the queue, one by one. */
  lemma {:induction false} VoicedInOrder(earlier: seq<string>, later: seq<string>, controlled: string, here: set<string>)
    requires controlled !in earlier
    ensures Voiced(earlier + later, controlled, here) == Voiced(earlier, controlled, here) + Voiced(later, controlled, here)
  {
    if earlier == [] {
      assert earlier + later == later;
    } else {
      var all := earlier + later;
      assert all[0] == earlier[0] && all[1..] == earlier[1..] + later;
      assert earlier == [earlier[0]] + earlier[1..];
      VoicedInOrder(earlier[1..], later, controlled, here);
    }
  }

  /** The part of the queue ahead of the controlled character. */
  function Ahead(queue: seq<string>, controlled: string): seq<string> {
    if queue == [] || queue[0] == controlled then [] else [queue[0]] + Ahead(queue[1..], controlled)
  }

  lemma {:induction false} AheadExact(queue: seq<string>, controlled: string)
    ensures var a := Ahead(queue, controlled);
            a <= queue && controlled !in a && (|a| < |queue| ==> queue[|a|] == controlled)
  {
    if queue != [] && queue[0] != controlled {
      AheadExact(queue[1..], controlled);
      assert queue == [queue[0]] + queue[1..];
    }
  }

  predicate Unique(xs: seq<string>) {
    forall i, j | 0 <= i < j < |xs| :: xs[i] != xs[j]
  }

  lemma UniqueTail(xs: seq<string>)
    requires xs != [] && Unique(xs)
    ensures Unique(xs[1..]) && xs[0] !in xs[1..]
  {
    var rest := xs[1..];
    forall i, j | 0 <= i < j < |rest| ensures rest[i] != rest[j] {
      assert rest[i] == xs[i + 1] && rest[j] == xs[j + 1];
    }
  }

  /** The voiced are exactly the present ones ahead of the controlled character, who is never voiced; a
      queue without duplicates voices nobody twice. */
  lemma {:induction false} VoicedBeforeControlled(queue: seq<string>, controlled: string, here: set<string>)
    ensures forall id :: id in Voiced(queue, controlled, here) <==> id in here && id in Ahead(queue, controlled)
    ensures |Voiced(queue, controlled, here)| <= |queue|
    ensures Unique(queue) ==> Unique(Voiced(queue, controlled, here))
  {
    if queue != [] && queue[0] != controlled {
      var rest := queue[1..];
      VoicedBeforeControlled(rest, controlled, here);
      if Unique(queue) {
        UniqueTail(queue);
        AheadExact(rest, controlled);
        assert queue[0] !in Voiced(rest, controlled, here);
      }
    }
  }
}
