/** Which beat a story is on: what the planner's reply becomes, and that it is installed whenever a beat ends. */
module StoryBeats {
  import opened Wrappers
  import opened Model
  import opened History
  import opened StoryClock
  import opened StoryTheorems
  import opened StoryHeard
  import Ints

  // ---- what becomes of a reply ---------------------------------------------

  /** `at` lists, in increasing order, the places of `xs` where a kept entry stands for the first time. */
  ghost predicate FirstPlaces(xs: seq<string>, kept: seq<string>, at: seq<nat>) {
    && |at| == |kept|
    && (forall k, l | 0 <= k < l < |at| :: at[k] < at[l])
    && forall k | 0 <= k < |at| :: at[k] < |xs| && xs[at[k]] == kept[k] && kept[k] !in xs[..at[k]]
  }

  lemma {:induction false} DistinctInOrder(xs: seq<string>) returns (at: seq<nat>)
    ensures FirstPlaces(xs, Distinct(xs), at)
  {
    at := [];
    if xs != [] {
      var n := |xs| - 1;
      at := DistinctInOrder(xs[..n]);
      FirstPlacesLonger(xs[..n], Distinct(xs[..n]), at, xs[n]);
      assert xs == xs[..n] + [xs[n]];
      DistinctExact(xs[..n]);
      if xs[n] !in Distinct(xs[..n]) {
        at := at + [n];
      }
    }
  }

  lemma FirstPlacesLonger(xs: seq<string>, kept: seq<string>, at: seq<nat>, x: string)
    requires FirstPlaces(xs, kept, at)
    ensures FirstPlaces(xs + [x], kept, at)
  {
    forall k | 0 <= k < |at| ensures (xs + [x])[..at[k]] == xs[..at[k]] {}
  }

  lemma FirstPlacesTail(xs: seq<string>, kept: seq<string>, at: seq<nat>)
    requires FirstPlaces(xs, kept, at) && kept != []
    ensures FirstPlaces(xs, kept[1..], at[1..]) && at != [] && forall k | 0 <= k < |at[1..]| :: at[0] < at[1..][k]
  {
  }

  lemma FirstPlacesCons(xs: seq<string>, x: string, a: nat, kept: seq<string>, at: seq<nat>)
    requires FirstPlaces(xs, kept, at) && a < |xs| && xs[a] == x && x !in xs[..a]
    requires forall k | 0 <= k < |at| :: a < at[k]
    ensures FirstPlaces(xs, [x] + kept, [a] + at)
  {
  }

  lemma {:induction false} WhereInOrder(xs: seq<string>, ys: seq<string>, at: seq<nat>, keep: string -> bool, least: nat)
    returns (some: seq<nat>)
    requires FirstPlaces(xs, ys, at) && forall k | 0 <= k < |at| :: least <= at[k]
    ensures FirstPlaces(xs, Where(ys, keep), some) && forall k | 0 <= k < |some| :: least <= some[k]
    decreases |ys|
  {
    some := [];
    if ys != [] {
      FirstPlacesTail(xs, ys, at);
      some := WhereInOrder(xs, ys[1..], at[1..], keep, at[0] + 1);
      if keep(ys[0]) {
        FirstPlacesCons(xs, ys[0], at[0], Where(ys[1..], keep), some);
        some := [at[0]] + some;
      }
    }
  }

  lemma NamesKept(xs: seq<string>, keep: string -> bool) returns (at: seq<nat>)
    ensures FirstPlaces(xs, Where(Distinct(xs), keep), at)
    ensures forall x :: x in Where(Distinct(xs), keep) <==> x in xs && keep(x)
  {
    var all := DistinctInOrder(xs);
    at := WhereInOrder(xs, Distinct(xs), all, keep, 0);
    DistinctExact(xs);
    WhereExact(Distinct(xs), keep);
  }

  /** The generated budget, or the nearest bound; six where none was given. */
  predicate BudgetKept(raw: Option<int>, budget: int) {
    match raw
    case None => budget == 6
    case Some(n) => if n < 2 then budget == 2 else if n > 10 then budget == 10 else budget == n
  }

  /** The clamp changes nothing but what it must: id, intent and exit condition stand, the actors are the
      admissible ones in the order they are first named, and the budget is kept within its bounds. */
  lemma BeatIsKept(raw: RawBeat, cast: Cast, controlled: string) returns (at: seq<nat>)
    requires raw.intent != ""
    ensures var b := ValidateBeat(Some(raw), cast, controlled);
            && b.Some? && b.value.beatId == raw.beatId && b.value.intent == raw.intent
            && b.value.exitCondition == raw.exitCondition && BudgetKept(raw.budget, b.value.budgetTurns)
            && FirstPlaces(raw.actors, b.value.actors, at)
            && (forall a :: a in b.value.actors <==> a in raw.actors && a in cast && a != controlled)
  {
    at := NamesKept(raw.actors, a => a in cast && a != controlled);
  }

  lemma FirstPlacesPrefix(xs: seq<string>, kept: seq<string>, at: seq<nat>, n: nat)
    requires FirstPlaces(xs, kept, at) && n <= |kept|
    ensures FirstPlaces(xs, kept[..n], at[..n])
  {
  }

  /** The anchors are the first five that are not empty, in the order they are first named. */
  lemma AnchorsAreKept(raw: RawBeat, cast: Cast, controlled: string) returns (at: seq<nat>)
    requires raw.intent != ""
    ensures var b := ValidateBeat(Some(raw), cast, controlled);
            && b.Some? && |b.value.anchors| <= 5
            && FirstPlaces(raw.anchors, b.value.anchors, at)
            && (forall a | a in b.value.anchors :: a != "")
            && (|b.value.anchors| < 5 ==> forall a | a in raw.anchors && a != "" :: a in b.value.anchors)
  {
    var keep := a => a != "";
    at := NamesKept(raw.anchors, keep);
    var named := Where(Distinct(raw.anchors), keep);
    var b := ValidateBeat(Some(raw), cast, controlled);
    assert b.value.anchors == if |named| > 5 then named[..5] else named;
    if |named| > 5 {
      FirstPlacesPrefix(raw.anchors, named, at, 5);
      at := at[..5];
      forall a | a in named[..5] ensures a != "" { assert a in named; }
    }
  }

  /** An act is kept, within the bounds of its duration, exactly if it has a summary. */
  lemma ActIsKept(raw: RawAct)
    ensures var acts := ValidateActs([raw]);
            if raw.summary == "" then acts == []
            else
              && |acts| == 1 && acts[0].summary == raw.summary && acts[0].actId == raw.actId
              && acts[0].exitCondition == raw.exitCondition && acts[0].worldEvent == raw.worldEvent
              && match raw.duration
                 case None => acts[0].durationTicks == 0
                 case Some(n) =>
                   acts[0].durationTicks == if n < 0 then 0 else if n > 12 then 12 else n
  {
    assert [raw][1..] == [] && ValidateActs([]) == [];
  }

  /** Acts are kept in their order. */
  lemma {:induction false} ActsInOrder(a: seq<RawAct>, b: seq<RawAct>)
    ensures ValidateActs(a + b) == ValidateActs(a) + ValidateActs(b)
  {
    if a == [] {
      assert a + b == b;
    } else {
      assert (a + b)[0] == a[0] && (a + b)[1..] == a[1..] + b;
      ActsInOrder(a[1..], b);
    }
  }

  /** Of an act-scope replan's acts those are new that resemble no act already reached. */
  lemma {:induction false} FreshExact(acts: seq<RoteiroAct>, kept: seq<RoteiroAct>, similar: Similar)
    ensures forall a :: a in Fresh(acts, kept, similar) <==>
      a in acts && forall k | k in kept :: !similar(a.summary, k.summary)
  {
    if acts != [] {
      FreshExact(acts[1..], kept, similar);
      assert acts == [acts[0]] + acts[1..];
    }
  }

  lemma {:induction false} FreshInOrder(a: seq<RoteiroAct>, b: seq<RoteiroAct>, kept: seq<RoteiroAct>, similar: Similar)
    ensures Fresh(a + b, kept, similar) == Fresh(a, kept, similar) + Fresh(b, kept, similar)
  {
    if a == [] {
      assert a + b == b;
    } else {
      assert (a + b)[0] == a[0] && (a + b)[1..] == a[1..] + b;
      FreshInOrder(a[1..], b, kept, similar);
    }
  }

  // ---- the reply is installed ----------------------------------------------

  /** The acts a replan leaves: those reached stay; an act-scope one puts what is new of the first five offered
      behind them, if it offers any act, and no other one changes the acts. */
  lemma ReplannedActs(r: Roteiro, v: Verdict, beat: RoteiroBeat, reply: Reply, turn: int, tick: int, similar: Similar)
    requires r.actIndex < |r.acts|
    ensures var n := Replan(r, v, beat, reply, turn, tick, similar);
            var offered := ValidateActs(if |reply.acts| > 5 then reply.acts[..5] else reply.acts);
            n.acts == if v.decision.ReplanAct? && offered != []
                      then r.acts[..r.actIndex + 1] + Fresh(offered, r.acts[..r.actIndex + 1], similar) else r.acts
  {
  }

  /** Where a replan leaves the story in its acts: it moves on by one exactly when the reply closes the act, another
      one follows and no deadline has decided that already; the act's clock starts anew with a new act only; and
      the count of failed replans is dropped by a new act or an act-scope replan and grows by a failed one. */
  lemma ReplannedIndex(r: Roteiro, v: Verdict, beat: RoteiroBeat, reply: Reply, turn: int, tick: int, similar: Similar)
    ensures var n := Replan(r, v, beat, reply, turn, tick, similar);
            && (n.actIndex == r.actIndex + 1 <==> reply.actCompleted && r.actIndex + 1 < |n.acts| && v.reason != ActDeadline)
            && (n.actIndex == r.actIndex + 1 || n.actIndex == r.actIndex)
            && n.actStartedTick == (if n.actIndex == r.actIndex then r.actStartedTick else tick)
            && n.beatReplansInAct ==
                 (if v.decision.ReplanAct? || n.actIndex != r.actIndex then 0 else r.beatReplansInAct)
                 + (if v.decision.ReplanBeat? && (v.reason.Stalled? || v.reason.Drifted?) then 1 else 0)
  {
  }

  /** A step stages an act's world event exactly when that act has a duration and has had it. */
  lemma StagedExactly(s: Story, b: Input, w: Setting)
    requires !Outcome(s, b, w).Raised?
    ensures Outcome(s, b, w).event.staged ==
              if s.roteiro.Some? && s.roteiro.value.actIndex < |s.roteiro.value.acts|
                 && s.roteiro.value.acts[s.roteiro.value.actIndex].durationTicks > 0
                 && s.roteiro.value.actStartedTick + s.roteiro.value.acts[s.roteiro.value.actIndex].durationTicks <= s.tick
              then Some(s.roteiro.value.actIndex) else None
  {
    if s.roteiro.Some? { Cases(s, b, w); }
  }

  /** What is said of the beat that ends. */
  predicate Outcomes(v: Verdict, said: string) {
    if v.decision.Advance? then said == "completed"
    else (v.reason.Stalled? ==> said == "stalled") && (v.reason.Drifted? ==> said == "drifted")
         && (v.reason.NoBeat? ==> said == "no_beat") && (v.reason.ActDeadline? ==> said == "act_deadline")
  }

  /** A screenplay that has moved on to a new beat of this turn: it is the reply's beat as clamped, with nothing
      of it seen or spent; the premise is kept, and the log ends with the old beat and how it ended, the nineteen
      lines before it being the latest ones there were. */
  predicate MovedOn(r: Roteiro, n: Roteiro, beat: Option<RoteiroBeat>, v: Verdict, turn: int) {
    && n.beat == beat && beat.Some? && n.beatStartedTurn == turn
    && n.anchorsSeen == [] && n.beatActionsElapsed == 0 && n.cooldownUntilTurn == turn + 2
    && n.premise == r.premise
    && n.beatLog != []
    && Outcomes(v, OutcomeText(v))
    && n.beatLog[|n.beatLog| - 1] == (if r.beat.Some? then r.beat.value.beatId else "none") + ": " + OutcomeText(v)
    && n.beatLog[..|n.beatLog| - 1] == if |r.beatLog| < 20 then r.beatLog else r.beatLog[|r.beatLog| - 19..]
  }

  lemma LogMovesOn(log: seq<string>, entry: string)
    ensures var n := Logged(log, entry);
            && n != [] && n[|n| - 1] == entry
            && n[..|n| - 1] == if |log| < 20 then log else log[|log| - 19..]
  {
  }

  lemma ReplanMovesOn(r: Roteiro, v: Verdict, beat: RoteiroBeat, reply: Reply, turn: int, tick: int, similar: Similar)
    ensures MovedOn(r, Replan(r, v, beat, reply, turn, tick, similar), Some(beat), v, turn)
  {
    LogMovesOn(r.beatLog, (if r.beat.Some? then r.beat.value.beatId else "none") + ": " + OutcomeText(v));
  }

  /** What the step decides on. */
  function VerdictAt(s: Story, b: Input, w: Setting): Verdict
    requires s.roteiro.Some?
  {
    if DeadlineDue(s.roteiro.value, s.tick)
    then Verdict(if s.roteiro.value.actIndex + 1 >= |s.roteiro.value.acts| then ReplanAct else ReplanBeat, ActDeadline)
    else VerdictOf(s, b, w)
  }

  lemma DeadlineMovesOn(r: Roteiro, beat: RoteiroBeat, reply: Reply, turn: int, tick: int, similar: Similar)
    ensures MovedOn(r, Deadline(r, beat, reply, turn, tick, similar), Some(beat),
                    Verdict(if r.actIndex + 1 >= |r.acts| then ReplanAct else ReplanBeat, ActDeadline), turn)
  {
    var terminal := r.actIndex + 1 >= |r.acts|;
    var r1 := r.(actIndex := if terminal then r.actIndex else r.actIndex + 1, actStartedTick := tick, beatReplansInAct := 0);
    ReplanMovesOn(r1, Verdict(if terminal then ReplanAct else ReplanBeat, ActDeadline), beat, reply, turn, tick, similar);
  }

  /** The same for a screenplay and a verdict. */
  lemma MaintainInstalls(r: Roteiro, v: Verdict, beat: Option<RoteiroBeat>, reply: Reply, turn: int, tick: int, similar: Similar)
    requires !MaintainBeat(r, v, beat, reply, turn, tick, similar).Raised?
    ensures var m := MaintainBeat(r, v, beat, reply, turn, tick, similar);
            && m.roteiro.Some?
            && if DeadlineDue(r, tick) then
                 MovedOn(r, m.roteiro.value, beat,
                         Verdict(if r.actIndex + 1 >= |r.acts| then ReplanAct else ReplanBeat, ActDeadline), turn)
               else if v.decision.Stay? then m.roteiro.value == r
               else MovedOn(r, m.roteiro.value, beat, v, turn)
  {
    if DeadlineDue(r, tick) {
      DeadlineMovesOn(r, beat.value, reply, turn, tick, similar);
    } else if !v.decision.Stay? {
      ReplanMovesOn(r, v, beat.value, reply, turn, tick, similar);
    }
  }

  /** A maintenance step that neither raises nor stays installs the reply's beat; one that stays changes nothing
      but the count of player actions. */
  lemma StepInstalls(s: Story, b: Input, w: Setting)
    requires s.roteiro.Some? && !Outcome(s, b, w).Raised?
    ensures Outcome(s, b, w).roteiro.Some?
    ensures var r, n, v := s.roteiro.value, Outcome(s, b, w).roteiro.value, VerdictAt(s, b, w);
            if v.decision.Stay? then
              n == r.(beatActionsElapsed := r.beatActionsElapsed + if b.first then 1 else 0)
            else MovedOn(r, n, ValidateBeat(b.reply.beat, w.cast, w.controlled), v, NextTurn(s.history))
  {
    Cases(s, b, w);
    MaintainInstalls(Counted(s.roteiro.value, b.first), VerdictOf(s, b, w), ValidateBeat(b.reply.beat, w.cast, w.controlled),
                     b.reply, NextTurn(s.history), s.tick, w.similar);
  }

  /** The first step writes the screenplay of the reply: its premise, the first five of its acts, its beat. */
  lemma FirstStepCompiles(s: Story, b: Input, w: Setting)
    requires s.roteiro.None? && !Outcome(s, b, w).Raised?
    ensures Outcome(s, b, w).roteiro.Some?
    ensures var n := Outcome(s, b, w).roteiro.value;
            && n.beat == ValidateBeat(b.reply.beat, w.cast, w.controlled) && n.beat.Some?
            && n.beatStartedTurn == NextTurn(s.history) && n.actStartedTick == s.tick && n.actIndex == 0
            && n.premise == b.reply.premise && n.premise != ""
            && n.acts == ValidateActs(if |b.reply.acts| > 5 then b.reply.acts[..5] else b.reply.acts) && n.acts != []
            && n.anchorsSeen == [] && n.beatLog == [] && n.beatActionsElapsed == 0 && n.beatReplansInAct == 0
            && n.cooldownUntilTurn == 0
  {
  }

  /** A step raises exactly when it needs a reply and the reply is no good. */
  lemma RaisesExactly(s: Story, b: Input, w: Setting)
    ensures Outcome(s, b, w).Raised? <==>
      if s.roteiro.None? then
        || b.reply.premise == "" || b.reply.beat.None? || b.reply.beat.value.intent == ""
        || (forall i | 0 <= i < |b.reply.acts| && i < 5 :: b.reply.acts[i].summary == "")
      else !VerdictAt(s, b, w).decision.Stay? && (b.reply.beat.None? || b.reply.beat.value.intent == "")
  {
    if s.roteiro.None? {
      NoActs(FirstFive(b.reply.acts));
    } else {
      Cases(s, b, w);
    }
  }

  lemma {:induction false} NoActs(raw: seq<RawAct>)
    ensures ValidateActs(raw) == [] <==> forall i | 0 <= i < |raw| :: raw[i].summary == ""
  {
    if raw != [] {
      NoActs(raw[1..]);
      assert forall i | 1 <= i < |raw| :: raw[i] == raw[1..][i - 1];
    }
  }

  /** One step either begins the reply's beat on its turn or leaves the current one. */
  lemma BeatStep(s: Story, b: Input, w: Setting)
    ensures var n := Next(s, b, w).roteiro;
            if Begins(s, b, w) then
              && n.Some? && n.value.beat == ValidateBeat(b.reply.beat, w.cast, w.controlled) && n.value.beat.Some?
              && n.value.beatStartedTurn == NextTurn(s.history)
            else n.Some? ==>
              s.roteiro.Some? && n.value.beat == s.roteiro.value.beat && n.value.beatStartedTurn == s.roteiro.value.beatStartedTurn
  {
    if Commits(s, b, w) {
      if s.roteiro.None? { FirstStepCompiles(s, b, w); } else { StepInstalls(s, b, w); }
    }
  }

  /** Which steps of a run begin a beat. */
  function Births(s: Story, bs: seq<Input>, w: Setting): (marks: seq<bool>)
    ensures |marks| == |bs|
  {
    if bs == [] then []
    else
      var n := |bs| - 1;
      Births(s, bs[..n], w) + [Begins(Run(s, bs[..n], w), bs[n], w)]
  }

  /** Which steps of a run were saved and showed the anchor. */
  function Shows(s: Story, bs: seq<Input>, w: Setting, a: string): (marks: seq<bool>)
    ensures |marks| == |bs|
  {
    if bs == [] then []
    else
      var n := |bs| - 1;
      Shows(s, bs[..n], w, a) + [Commits(Run(s, bs[..n], w), bs[n], w) && a in bs[n].seen]
  }

  lemma {:induction false} MarksAt(s: Story, bs: seq<Input>, w: Setting, a: string, i: nat)
    requires i < |bs|
    ensures Births(s, bs, w)[i] == Begins(Run(s, bs[..i], w), bs[i], w)
    ensures Shows(s, bs, w, a)[i] == (Commits(Run(s, bs[..i], w), bs[i], w) && a in bs[i].seen)
  {
    if i < |bs| - 1 {
      assert bs[..|bs| - 1][..i] == bs[..i];
      MarksAt(s, bs[..|bs| - 1], w, a, i);
    }
  }

  /** `i` is the latest mark. */
  predicate Latest(marks: seq<bool>, i: nat) {
    i < |marks| && marks[i] && forall j | i < j < |marks| :: !marks[j]
  }

  predicate AnySince(marks: seq<bool>, i: nat) {
    exists k | i <= k < |marks| :: marks[k]
  }

  lemma LatestMore(marks: seq<bool>, last: bool, i: nat)
    requires if last then i == |marks| else Latest(marks, i)
    ensures Latest(marks + [last], i)
  {
  }

  lemma AnyMore(marks: seq<bool>, last: bool, i: nat)
    requires i <= |marks|
    ensures AnySince(marks + [last], i) <==> AnySince(marks, i) || last
  {
    var more := marks + [last];
    assert more[|marks|] == last;
    if AnySince(marks, i) {
      var k :| i <= k < |marks| && marks[k];
      assert more[k];
    }
  }

  /** Along every run the current beat is the one generated at the latest step that began one: that step's turn
      is the beat's start, its reply the beat, and no later step began another. */
  lemma {:induction false} CurrentBeatIsGenerated(s: Story, bs: seq<Input>, w: Setting) returns (i: nat)
    requires s.roteiro.None? && Run(s, bs, w).roteiro.Some?
    ensures Latest(Births(s, bs, w), i)
    ensures var r := Run(s, bs, w).roteiro.value;
            && r.beat == ValidateBeat(bs[i].reply.beat, w.cast, w.controlled) && r.beat.Some?
            && r.beatStartedTurn == NextTurn(Run(s, bs[..i], w).history)
  {
    var n := |bs| - 1;
    var before := Run(s, bs[..n], w);
    BeatStep(before, bs[n], w);
    if Begins(before, bs[n], w) {
      i := n;
    } else {
      i := CurrentBeatIsGenerated(s, bs[..n], w);
      assert bs[..n][i] == bs[i] && bs[..n][..i] == bs[..i];
    }
    LatestMore(Births(s, bs[..n], w), Begins(before, bs[n], w), i);
  }

  /** A saved step adds the anchors it showed, to none if it began the beat. */
  lemma SeenStep(s: Story, b: Input, w: Setting, a: string)
    requires Next(s, b, w).roteiro.Some?
    ensures a in Next(s, b, w).roteiro.value.anchorsSeen <==>
      || (Commits(s, b, w) && a in b.seen)
      || (!Begins(s, b, w) && s.roteiro.Some? && a in s.roteiro.value.anchorsSeen)
  {
    if Commits(s, b, w) {
      if s.roteiro.None? { FirstStepCompiles(s, b, w); } else { StepInstalls(s, b, w); }
    }
  }

  /** An anchor counts as seen exactly when some saved step since the current beat began has shown it. */
  lemma {:induction false} AnchorsSeenExactly(s: Story, bs: seq<Input>, w: Setting, a: string) returns (i: nat)
    requires s.roteiro.None? && Run(s, bs, w).roteiro.Some?
    ensures Latest(Births(s, bs, w), i)
    ensures a in Run(s, bs, w).roteiro.value.anchorsSeen <==> AnySince(Shows(s, bs, w, a), i)
  {
    var n := |bs| - 1;
    var before := Run(s, bs[..n], w);
    SeenStep(before, bs[n], w, a);
    if Begins(before, bs[n], w) {
      i := n;
    } else {
      BeatStep(before, bs[n], w);
      i := AnchorsSeenExactly(s, bs[..n], w, a);
    }
    LatestMore(Births(s, bs[..n], w), Begins(before, bs[n], w), i);
    AnyMore(Shows(s, bs[..n], w, a), Commits(before, bs[n], w) && a in bs[n].seen, i);
  }

  // ---- when a beat ends ----------------------------------------------------

  predicate Landed(r: Roteiro, h: Records, anchor: string, matched: Matcher) {
    || anchor in r.anchorsSeen
    || exists i | 0 <= i < |h| :: h[i].turn >= r.beatStartedTurn && h[i].kind != Thought && matched(anchor, h[i].content)
  }

  predicate Played(r: Roteiro, h: Records, actor: string, controlled: string) {
    exists i | 0 <= i < |h| ::
      h[i].turn >= r.beatStartedTurn && (h[i].kind == Speech || h[i].kind == Action)
      && (if h[i].speaker == PLAYER then controlled == actor else h[i].speaker == actor)
  }

  /** On this record an actor of the beat speaks or acts, or an anchor comes up. */
  predicate Touches(r: Roteiro, beat: RoteiroBeat, rec: TurnRecord, controlled: string, matched: Matcher) {
    && rec.turn >= r.beatStartedTurn && rec.kind != Thought
    && ((exists a | a in beat.anchors :: matched(a, rec.content))
        || ((rec.kind == Speech || rec.kind == Action)
            && (if rec.speaker == PLAYER then controlled in beat.actors else rec.speaker in beat.actors)))
  }

  /** The turns narrated since the beat began. */
  function Narrated(r: Roteiro, h: Records): set<int> {
    set i | 0 <= i < |h| && h[i].turn >= r.beatStartedTurn && h[i].kind != Thought :: h[i].turn
  }

  /** Those behind the last one that touched the beat. */
  function Adrift(r: Roteiro, beat: RoteiroBeat, h: Records, controlled: string, matched: Matcher): set<int> {
    set t | t in Narrated(r, h)
            && forall i | 0 <= i < |h| && Touches(r, beat, h[i], controlled, matched) :: h[i].turn < t
  }

  /** Everything the beat waits for has come. */
  predicate Complete(r: Roteiro, beat: RoteiroBeat, h: Records, controlled: string, matched: Matcher) {
    && (beat.anchors != [] || beat.actors != [])
    && (forall a | a in beat.anchors :: Landed(r, h, a, matched))
    && (forall a | a in beat.actors :: Played(r, h, a, controlled))
  }

  /** All actors have played, some anchor has landed, at most one is missing, and two turns have gone by. */
  predicate Sufficient(r: Roteiro, beat: RoteiroBeat, h: Records, controlled: string, matched: Matcher) {
    && (forall a | a in beat.actors :: Played(r, h, a, controlled))
    && (exists a | a in beat.anchors :: Landed(r, h, a, matched))
    && (forall i, j | 0 <= i < j < |beat.anchors| :: Landed(r, h, beat.anchors[i], matched) || Landed(r, h, beat.anchors[j], matched))
    && |Narrated(r, h)| >= 2
  }

  /** Three player actions or the budget are spent, or three turns narrated. */
  predicate RunOut(r: Roteiro, beat: RoteiroBeat, h: Records) {
    r.beatActionsElapsed >= 3 || r.beatActionsElapsed >= beat.budgetTurns || |Narrated(r, h)| >= 3
  }

  lemma {:induction false} WhereEmpty(xs: seq<string>, keep: string -> bool)
    ensures Where(xs, keep) == [] <==> forall x | x in xs :: !keep(x)
  {
    WhereExact(xs, keep);
    if Where(xs, keep) != [] { assert Where(xs, keep)[0] in Where(xs, keep); }
    if x :| x in xs && keep(x) { assert x in Where(xs, keep); }
  }

  lemma {:induction false} WhereSingle(xs: seq<string>, keep: string -> bool)
    ensures |Where(xs, keep)| <= 1 <==> forall i, j | 0 <= i < j < |xs| :: !keep(xs[i]) || !keep(xs[j])
  {
    if xs != [] {
      var rest := xs[1..];
      WhereSingle(rest, keep);
      WhereEmpty(rest, keep);
      assert forall i | 0 <= i < |rest| :: rest[i] == xs[i + 1];
      if keep(xs[0]) {
        if x :| x in rest && keep(x) {
          var j :| 0 <= j < |rest| && rest[j] == x;
          assert keep(xs[0]) && keep(xs[j + 1]);
        }
      }
    }
  }

  lemma MissingExact(r: Roteiro, h: Records, controlled: string, matched: Matcher)
    requires r.beat.Some?
    ensures var beat := r.beat.value;
            && (AnchorsMissing(r, h, matched) == [] <==> forall a | a in beat.anchors :: Landed(r, h, a, matched))
            && (|AnchorsMissing(r, h, matched)| <= 1 <==> forall i, j | 0 <= i < j < |beat.anchors| ::
                  Landed(r, h, beat.anchors[i], matched) || Landed(r, h, beat.anchors[j], matched))
            && (AnchorsHit(r, h, matched) != [] <==> exists a | a in beat.anchors :: Landed(r, h, a, matched))
  {
    var anchors := r.beat.value.anchors;
    WhereEmpty(anchors, a => !AnchorHit(r, h, a, matched));
    WhereSingle(anchors, a => !AnchorHit(r, h, a, matched));
    WhereEmpty(anchors, a => AnchorHit(r, h, a, matched));
    assert forall a :: AnchorHit(r, h, a, matched) <==> Landed(r, h, a, matched);
  }

  lemma ActorsExact(r: Roteiro, h: Records, controlled: string)
    requires r.beat.Some?
    ensures ActorsMissing(r, h, controlled) == [] <==> forall a | a in r.beat.value.actors :: Played(r, h, a, controlled)
  {
    WhereEmpty(r.beat.value.actors, a => !ActorHit(r, h, a, controlled));
    assert forall a :: ActorHit(r, h, a, controlled) <==> Played(r, h, a, controlled);
  }

  lemma TurnsExact(r: Roteiro, h: Records, controlled: string, matched: Matcher)
    requires r.beat.Some?
    ensures var p := Measure(r, h, controlled, matched);
            p.turnsElapsed == |Narrated(r, h)| && p.disengagedStreak == |Adrift(r, r.beat.value, h, controlled, matched)|
  {
    var beat := r.beat.value;
    var turns, engaged := Turns(h, r.beatStartedTurn), EngagedTurns(h, r.beatStartedTurn, beat, controlled, matched);
    assert turns == Narrated(r, h);
    forall i | 0 <= i < |h|
      ensures Counts(h[i], r.beatStartedTurn) && Engages(h[i], beat, controlled, matched) <==> Touches(r, beat, h[i], controlled, matched)
    {}
    forall t ensures t in Trailing(turns, engaged) <==> t in Adrift(r, beat, h, controlled, matched) {
      if t in Adrift(r, beat, h, controlled, matched) {
        forall e | e in engaged ensures e < t {
          var i :| 0 <= i < |h| && Counts(h[i], r.beatStartedTurn) && Engages(h[i], beat, controlled, matched) && h[i].turn == e;
        }
      }
      if t in Trailing(turns, engaged) {
        forall i | 0 <= i < |h| && Touches(r, beat, h[i], controlled, matched) ensures h[i].turn < t {
          assert h[i].turn in engaged;
        }
      }
    }
    assert Trailing(turns, engaged) == Adrift(r, beat, h, controlled, matched);
  }

  /** The verdict on a beat, in terms of the records: complete or sufficient beats move on whatever the clocks
      say; any other stays until one of its clocks has run out and the cooldown is over, and is then replanned,
      in scope of the act if two replans have failed it. */
  lemma VerdictExact(r: Roteiro, h: Records, controlled: string, next: int, matched: Matcher)
    requires r.beat.Some?
    ensures var beat := r.beat.value;
            Evaluate(r, h, controlled, next, matched) ==
              if Complete(r, beat, h, controlled, matched) then Verdict(Advance, CoverageComplete)
              else if Sufficient(r, beat, h, controlled, matched) then Verdict(Advance, CoverageSufficient)
              else if !RunOut(r, beat, h) then Verdict(Stay, InProgress)
              else if next < r.cooldownUntilTurn then Verdict(Stay, Cooldown)
              else Verdict(if r.beatReplansInAct >= 2 then ReplanAct else ReplanBeat,
                           if |Adrift(r, beat, h, controlled, matched)| >= 3 then Drifted else Stalled)
  {
    var beat := r.beat.value;
    MissingExact(r, h, controlled, matched);
    ActorsExact(r, h, controlled);
    TurnsExact(r, h, controlled, matched);
    assert Adrift(r, beat, h, controlled, matched) <= Narrated(r, h);
    Ints.SubsetSize(Adrift(r, beat, h, controlled, matched), Narrated(r, h));
  }
}
