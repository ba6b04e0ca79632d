/** The watcher: delta verdicts, the recovery ladder, and its counters along a run. */
module Watcher {
  import opened Wrappers

  // ---- the verdict ---------------------------------------------------------

  const MATERIAL: seq<string> := [
    "decision_taken", "information_revealed", "position_or_access_changed", "attempt_got_consequence",
    "relationship_changed", "threat_advanced", "possibility_opened_or_closed"]
  const NONE_VERDICT := "none"

  function Kept(categories: seq<string>, reported: set<string>): seq<string> {
    if categories == [] then []
    else (if categories[0] in reported then [categories[0]] else []) + Kept(categories[1..], reported)
  }

  /** `_normalize_categories`; None is a reply that is not a list. */
  function Normalize(reported: Option<set<string>>): seq<string> {
    if reported.None? then []
    else
      var material := Kept(MATERIAL, reported.value);
      if material != [] then material
      else if NONE_VERDICT in reported.value then [NONE_VERDICT] else []
  }

  /** `DeltaAudit.moved`. */
  predicate Moved(categories: seq<string>) {
    categories != [] && categories != [NONE_VERDICT]
  }

  lemma {:induction false} KeptExact(categories: seq<string>, reported: set<string>)
    ensures forall c :: c in Kept(categories, reported) <==> c in categories && c in reported
  {
    if categories != [] {
      KeptExact(categories[1..], reported);
      assert categories == [categories[0]] + categories[1..];
    }
  }

  /** A turn moved exactly when a material category was reported, whatever else was. */
  lemma MovedExactly(reported: Option<set<string>>)
    ensures Moved(Normalize(reported)) <==> reported.Some? && exists c :: c in MATERIAL && c in reported.value
  {
    if reported.Some? {
      var material := Kept(MATERIAL, reported.value);
      KeptExact(MATERIAL, reported.value);
      if material != [] {
        assert material[0] in material;
        assert NONE_VERDICT !in MATERIAL;
      } else {
        forall c | c in MATERIAL ensures c !in reported.value { assert c !in material; }
      }
    }
  }

  // ---- the ladder ----------------------------------------------------------

  datatype Rung = NoRung | ExecuteTransition | AdjudicateAttempt | AllowSilence | ReincorporateThread | CausalDisruption

  datatype Ladder = Ladder(quiet: int, sinceIntervention: int, promised: bool, attempt: bool, thread: bool, silenceSpent: bool)

  datatype Config = Config(enabled: bool, threshold: int, refractory: int)

  /** `select_recovery_step`. */
  function SelectStep(l: Ladder, c: Config): Rung {
    if !c.enabled then NoRung
    else if l.quiet < c.threshold then NoRung
    else if l.sinceIntervention < c.refractory then NoRung
    else if l.promised then ExecuteTransition
    else if l.attempt then AdjudicateAttempt
    else if !l.silenceSpent then AllowSilence
    else if l.thread then ReincorporateThread
    else CausalDisruption
  }

  // ---- one beat ------------------------------------------------------------

  datatype Counters = Counters(tick: int, quiet: int, lastIntervention: int, silenceSpent: bool)

  datatype Signal = Nothing | Silence | Disruption

  /** `_maybe_watcher_recovery`: the three flags without a derivation stay false. */
  function Recover(w: Counters, c: Config, grounded: bool): (Counters, Signal) {
    var rung := SelectStep(Ladder(w.quiet, w.tick - w.lastIntervention, false, false, false, w.silenceSpent), c);
    if rung.AllowSilence? then (w.(silenceSpent := true), Silence)
    else if rung.CausalDisruption? && grounded then
      (w.(lastIntervention := w.tick, quiet := 0, silenceSpent := false), Disruption)
    else (w, Nothing)
  }

  /** `_audit_turn_for_watcher`. */
  function Audit(w: Counters, moved: bool): Counters {
    if moved then w.(quiet := 0, silenceSpent := false) else w.(quiet := w.quiet + 1)
  }

  /** A beat: whether its hint slot was free, whether an intervention would be grounded, the time skip,
      the reported categories, and whether it was committed. */
  datatype Beat = Beat(free: bool, grounded: bool, skip: nat, verdict: Option<set<string>>, committed: bool)

  datatype Entry = Entry(signal: Signal, moved: bool, tick: int)

  function Recovered(w: Counters, b: Beat, c: Config): (Counters, Signal) {
    if b.free then Recover(w, c, b.grounded) else (w, Nothing)
  }

  function Next(w: Counters, b: Beat, c: Config): Counters {
    if !b.committed then w
    else
      var r := Recovered(w, b, c).0;
      Audit(r.(tick := r.tick + b.skip + 1), Moved(Normalize(b.verdict)))
  }

  function Run(w: Counters, bs: seq<Beat>, c: Config): Counters {
    if bs == [] then w else Next(Run(w, bs[..|bs| - 1], c), bs[|bs| - 1], c)
  }

  /** The committed beats of a run. */
  function Log(w: Counters, bs: seq<Beat>, c: Config): seq<Entry> {
    if bs == [] then []
    else
      var n := |bs| - 1;
      var before := Run(w, bs[..n], c);
      Log(w, bs[..n], c) +
      (if bs[n].committed then [Entry(Recovered(before, bs[n], c).1, Moved(Normalize(bs[n].verdict)), before.tick)] else [])
  }

  // ---- spacing of disruptions ----------------------------------------------

  /** Position of the latest disruption, or -1. */
  function LastDisruption(log: seq<Entry>): int
    ensures -1 <= LastDisruption(log) < |log|
  {
    if log == [] then -1
    else if log[|log| - 1].signal.Disruption? then |log| - 1
    else LastDisruption(log[..|log| - 1])
  }

  lemma {:induction false} LastDisruptionExact(log: seq<Entry>)
    ensures LastDisruption(log) >= 0 ==> log[LastDisruption(log)].signal.Disruption?
    ensures forall i | LastDisruption(log) < i < |log| :: !log[i].signal.Disruption?
  {
    if log != [] { LastDisruptionExact(log[..|log| - 1]); }
  }

  /** A silence tolerated after `from`, in the stall that is still running at the end of the log. */
  ghost predicate SilenceSince(log: seq<Entry>, from: int, threshold: int) {
    exists k | 0 <= k < |log| && from < k ::
      log[k].signal.Silence? && (from >= 0 ==> k - from >= threshold) && forall m | k <= m < |log| :: !log[m].moved
  }

  ghost predicate Tracked(w: Counters, log: seq<Entry>, c: Config) {
    var d := LastDisruption(log);
    && (d >= 0 ==> w.quiet <= |log| - d && w.lastIntervention == log[d].tick)
    && (w.silenceSpent ==> SilenceSince(log, d, c.threshold))
    && (forall i | 0 <= i < |log| :: log[i].tick < w.tick)
    && (forall i, j | 0 <= i < j < |log| :: log[i].tick < log[j].tick)
  }

  lemma LastDisruptionSnoc(log: seq<Entry>, e: Entry)
    ensures LastDisruption(log + [e]) == if e.signal.Disruption? then |log| else LastDisruption(log)
  {
    assert (log + [e])[..|log|] == log;
  }

  lemma SilenceLasts(log: seq<Entry>, e: Entry, from: int, threshold: int)
    requires !e.moved
    requires SilenceSince(log, from, threshold) || (e.signal.Silence? && from < |log| && (from >= 0 ==> |log| - from >= threshold))
    ensures SilenceSince(log + [e], from, threshold)
  {
    var more := log + [e];
    if SilenceSince(log, from, threshold) {
      var k :| 0 <= k < |log| && from < k && log[k].signal.Silence?
               && (from >= 0 ==> k - from >= threshold) && forall m | k <= m < |log| :: !log[m].moved;
      assert more[k].signal.Silence?;
    } else {
      assert more[|log|].signal.Silence?;
    }
  }

  lemma TrackStep(w: Counters, b: Beat, c: Config, log: seq<Entry>)
    requires Tracked(w, log, c) && b.committed
    ensures var e := Entry(Recovered(w, b, c).1, Moved(Normalize(b.verdict)), w.tick);
            Tracked(Next(w, b, c), log + [e], c)
  {
    var e := Entry(Recovered(w, b, c).1, Moved(Normalize(b.verdict)), w.tick);
    LastDisruptionSnoc(log, e);
    var n := Next(w, b, c);
    if n.silenceSpent {
      SilenceLasts(log, e, LastDisruption(log), c.threshold);
    }
  }

  lemma {:induction false} RunTracked(w: Counters, bs: seq<Beat>, c: Config)
    requires !w.silenceSpent
    ensures Tracked(Run(w, bs, c), Log(w, bs, c), c)
  {
    if bs != [] {
      var n := |bs| - 1;
      RunTracked(w, bs[..n], c);
      if bs[n].committed {
        TrackStep(Run(w, bs[..n], c), bs[n], c, Log(w, bs[..n], c));
      } else {
        assert Log(w, bs, c) == Log(w, bs[..n], c);
      }
    }
  }

  /** A disruption at `j` comes with its silence and its distance from the one before. */
  ghost predicate Spaced(log: seq<Entry>, j: nat, c: Config)
    requires j < |log|
  {
    var d := LastDisruption(log[..j]);
    && SilenceSince(log[..j], d, c.threshold)
    && (d >= 0 ==> j - d >= c.threshold + 1 && log[j].tick - log[d].tick >= c.refractory)
  }

  lemma {:induction false} DisruptionsSpaced(w: Counters, bs: seq<Beat>, c: Config)
    requires !w.silenceSpent
    ensures forall j | 0 <= j < |Log(w, bs, c)| && Log(w, bs, c)[j].signal.Disruption? :: Spaced(Log(w, bs, c), j, c)
  {
    if bs != [] {
      var n := |bs| - 1;
      DisruptionsSpaced(w, bs[..n], c);
      RunTracked(w, bs[..n], c);
      var before, log := Log(w, bs[..n], c), Log(w, bs, c);
      forall j | 0 <= j < |log| && log[j].signal.Disruption? ensures Spaced(log, j, c) {
        if j < |before| {
          assert Spaced(before, j, c) && log[..j] == before[..j];
        } else {
          assert log[..j] == before;
        }
      }
    }
  }

  /** What `Spaced` says of the disruption before, read against any earlier one. */
  lemma SpacedFrom(log: seq<Entry>, c: Config, i: nat, j: nat)
    requires i < j < |log| && log[i].signal.Disruption? && Spaced(log, j, c)
    requires forall x, y | 0 <= x < y < |log| :: log[x].tick < log[y].tick
    ensures j - i >= c.threshold + 1 && log[j].tick - log[i].tick >= c.refractory
    ensures exists k :: i < k < j && log[k].signal.Silence? && forall m | k <= m < j :: !log[m].moved
  {
    var before := log[..j];
    var d := LastDisruption(before);
    LastDisruptionExact(before);
    assert before[i] == log[i];
    assert i <= d;
    var k :| 0 <= k < j && d < k && before[k].signal.Silence? && forall m | k <= m < j :: !before[m].moved;
    assert log[k].signal.Silence?;
    forall m | k <= m < j ensures !log[m].moved { assert before[m] == log[m]; }
    assert i < d ==> log[i].tick < log[d].tick;
  }

  /** Of any two causal disruptions of a run, the later comes at least threshold + 1 committed beats and
      the refractory number of ticks after the earlier, and after a tolerated silence of the same
      stall: between that silence and the disruption nothing moved. */
  lemma DisruptionsAreRare(w: Counters, bs: seq<Beat>, c: Config, i: nat, j: nat)
    requires !w.silenceSpent && i < j < |Log(w, bs, c)|
    requires Log(w, bs, c)[i].signal.Disruption? && Log(w, bs, c)[j].signal.Disruption?
    ensures var log := Log(w, bs, c);
            && j - i >= c.threshold + 1
            && log[j].tick - log[i].tick >= c.refractory
            && exists k :: i < k < j && log[k].signal.Silence? && forall m | k <= m < j :: !log[m].moved
  {
    DisruptionsSpaced(w, bs, c);
    RunTracked(w, bs, c);
    SpacedFrom(Log(w, bs, c), c, i, j);
  }

  // ---- exactly when the ladder acts ----------------------------------------

  /** The last `n` committed beats of a run moved nothing, and no disruption restarted the count. */
  ghost predicate Still(log: seq<Entry>, n: int) {
    && n <= |log|
    && (forall i | |log| - n <= i < |log| :: !log[i].moved)
    && (forall i | |log| - n < i < |log| :: !log[i].signal.Disruption?)
  }

  /** The running stall already had its tolerated silence. */
  ghost predicate Forgiven(log: seq<Entry>) {
    exists k | 0 <= k < |log| :: log[k].signal.Silence?
      && (forall i | k <= i < |log| :: !log[i].moved) && (forall i | k < i < |log| :: !log[i].signal.Disruption?)
  }

  lemma StillSnoc(log: seq<Entry>, e: Entry, n: int)
    requires n >= 1
    ensures Still(log + [e], n) <==> !e.moved && (n == 1 || (!e.signal.Disruption? && Still(log, n - 1)))
  {
    var more := log + [e];
    assert more[|log|] == e;
    if Still(more, n) && n > 1 {
      forall i | |log| - (n - 1) <= i < |log| ensures !log[i].moved { assert !more[i].moved; }
      forall i | |log| - (n - 1) < i < |log| ensures !log[i].signal.Disruption? { assert !more[i].signal.Disruption?; }
    }
  }

  lemma ForgivenSnoc(log: seq<Entry>, e: Entry)
    ensures Forgiven(log + [e]) <==> !e.moved && (e.signal.Silence? || (!e.signal.Disruption? && Forgiven(log)))
  {
    var more := log + [e];
    assert more[|log|] == e;
    if Forgiven(more) {
      var k :| 0 <= k < |more| && more[k].signal.Silence?
               && (forall i | k <= i < |more| :: !more[i].moved) && (forall i | k < i < |more| :: !more[i].signal.Disruption?);
      if k < |log| {
        assert log[k].signal.Silence?;
        forall i | k <= i < |log| ensures !log[i].moved { assert !more[i].moved; }
        forall i | k < i < |log| ensures !log[i].signal.Disruption? { assert !more[i].signal.Disruption?; }
      }
    }
    if !e.moved && (e.signal.Silence? || (!e.signal.Disruption? && Forgiven(log))) {
      var k := |log|;
      if !e.signal.Silence? {
        k :| 0 <= k < |log| && log[k].signal.Silence?
             && (forall i | k <= i < |log| :: !log[i].moved) && (forall i | k < i < |log| :: !log[i].signal.Disruption?);
      }
      assert more[k].signal.Silence?;
    }
  }

  /** The clock of a run: one tick a committed beat, and what it skips. */
  function Elapsed(bs: seq<Beat>): nat {
    if bs == [] then 0 else Elapsed(bs[..|bs| - 1]) + if bs[|bs| - 1].committed then 1 + bs[|bs| - 1].skip else 0
  }

  /** The tick of the latest disruption of a run, or of the one the run began with. */
  function LatestTick(w: Counters, log: seq<Entry>): int {
    if LastDisruption(log) < 0 then w.lastIntervention else log[LastDisruption(log)].tick
  }

  /** The three counters say of the run's log what they are kept for. */
  lemma {:induction false} CountersExact(w: Counters, bs: seq<Beat>, c: Config, n: int)
    requires w.quiet == 0 && !w.silenceSpent && n >= 1
    ensures var now, log := Run(w, bs, c), Log(w, bs, c);
            && now.tick == w.tick + Elapsed(bs)
            && now.lastIntervention == LatestTick(w, log)
            && now.quiet >= 0
            && (now.quiet >= n <==> Still(log, n))
            && (now.silenceSpent <==> Forgiven(log))
    decreases |bs|, n
  {
    if bs != [] {
      var b := bs[|bs| - 1];
      var before, log := Run(w, bs[..|bs| - 1], c), Log(w, bs[..|bs| - 1], c);
      CountersExact(w, bs[..|bs| - 1], c, n);
      if b.committed {
        var e := Entry(Recovered(before, b, c).1, Moved(Normalize(b.verdict)), before.tick);
        LastDisruptionSnoc(log, e);
        StillSnoc(log, e, n);
        ForgivenSnoc(log, e);
        if n > 1 { CountersExact(w, bs[..|bs| - 1], c, n - 1); }
      } else {
        assert Log(w, bs, c) == log;
      }
    }
  }

  /** The two gates: the scene was still for the threshold, and the refractory ticks have passed. */
  ghost predicate Stalled(w: Counters, bs: seq<Beat>, c: Config) {
    && c.enabled
    && (c.threshold <= 0 || Still(Log(w, bs, c), c.threshold))
    && w.tick + Elapsed(bs) - LatestTick(w, Log(w, bs, c)) >= c.refractory
  }

  /** What the ladder does after any run from a new scene, in terms of the beats played: in a stall it
      first lets one beat of silence pass, then disrupts as soon as a beat with a free hint slot can
      ground it; outside a stall it does nothing. */
  lemma LadderExact(w: Counters, bs: seq<Beat>, c: Config, b: Beat)
    requires w.quiet == 0 && !w.silenceSpent
    ensures var log := Log(w, bs, c);
            var signal := Recovered(Run(w, bs, c), b, c).1;
            && (signal.Silence? <==> b.free && Stalled(w, bs, c) && !Forgiven(log))
            && (signal.Disruption? <==> b.free && Stalled(w, bs, c) && Forgiven(log) && b.grounded)
  {
    CountersExact(w, bs, c, if c.threshold >= 1 then c.threshold else 1);
  }

  // ---- a stall does not last -----------------------------------------------

  /** A committed beat that moves nothing and leaves an intervention room and ground. */
  ghost predicate IdleBeat(b: Beat) {
    b.free && b.grounded && b.committed && !Moved(Normalize(b.verdict))
  }

  ghost predicate Idle(bs: seq<Beat>) {
    forall b | b in bs :: IdleBeat(b)
  }

  ghost predicate Disrupts(log: seq<Entry>) {
    exists e | e in log :: e.signal.Disruption?
  }

  lemma IdleInit(w: Counters, bs: seq<Beat>, c: Config)
    requires bs != [] && Idle(bs)
    ensures var init, b := bs[..|bs| - 1], bs[|bs| - 1];
            && Idle(init) && IdleBeat(b)
            && Run(w, bs, c) == Next(Run(w, init, c), b, c)
            && (Disrupts(Log(w, bs, c)) <==> Disrupts(Log(w, init, c)) || Recovered(Run(w, init, c), b, c).1.Disruption?)
  {
    var init, b := bs[..|bs| - 1], bs[|bs| - 1];
    assert b in bs && forall x | x in init :: x in bs;
    var e := Entry(Recovered(Run(w, init, c), b, c).1, Moved(Normalize(b.verdict)), Run(w, init, c).tick);
    DisruptsSnoc(Log(w, init, c), e);
  }

  lemma DisruptsSnoc(log: seq<Entry>, e: Entry)
    ensures Disrupts(log + [e]) <==> Disrupts(log) || e.signal.Disruption?
  {
    assert e in log + [e];
    forall x | x in log ensures x in log + [e] { }
  }

  /** Where idle beats without a disruption leave the counters. */
  lemma {:induction false} IdleCounts(w: Counters, bs: seq<Beat>, c: Config)
    requires Idle(bs)
    ensures var now := Run(w, bs, c);
            Disrupts(Log(w, bs, c)) ||
            (now.quiet == w.quiet + |bs| && now.tick >= w.tick + |bs| && now.lastIntervention == w.lastIntervention)
  {
    if bs != [] {
      IdleInit(w, bs, c);
      IdleCounts(w, bs[..|bs| - 1], c);
    }
  }

  /** How many idle beats the gates still hold the ladder back. */
  function Wait(w: Counters, c: Config): int {
    var still, rest := c.threshold - w.quiet, c.refractory - (w.tick - w.lastIntervention);
    if still >= rest then (if still > 0 then still else 0) else (if rest > 0 then rest else 0)
  }

  predicate Open(w: Counters, c: Config) {
    c.enabled && w.quiet >= c.threshold && w.tick - w.lastIntervention >= c.refractory
  }

  /** Behind open gates the first idle beat disrupts, or it spends the silence and the second disrupts. */
  lemma SecondDisrupts(w: Counters, first: Beat, second: Beat, c: Config)
    requires Open(w, c) && IdleBeat(first) && IdleBeat(second)
    ensures Recovered(w, first, c).1.Disruption? || Recovered(Next(w, first, c), second, c).1.Disruption?
  {
  }

  /** From any state of the counters, the scene is disrupted within two idle beats of the gates opening. */
  lemma DisruptionComes(w: Counters, bs: seq<Beat>, c: Config)
    requires c.enabled && Idle(bs) && |bs| >= Wait(w, c) + 2
    ensures Disrupts(Log(w, bs, c))
  {
    var init := bs[..|bs| - 1];
    var early := init[..|init| - 1];
    IdleInit(w, bs, c);
    IdleInit(w, init, c);
    IdleCounts(w, early, c);
    if !Disrupts(Log(w, early, c)) {
      SecondDisrupts(Run(w, early, c), init[|init| - 1], bs[|bs| - 1], c);
    }
  }
}
