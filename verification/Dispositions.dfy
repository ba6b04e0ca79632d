/** Trust and warmth scalars: nudges, gravity, and the bands a model may read. */
module Dispositions {
  datatype Disposition = Disposition(baseline: real, value: real, gravity: real)

  datatype Dyad = Dyad(observer: string, target: string, axis: string)

  type State = map<Dyad, Disposition>

  const AXES: seq<string> := ["trust", "warmth"]
  const DEFAULT_BASELINE := 0.5
  const DEFAULT_GRAVITY := 0.25
  const BAND_EDGES: seq<real> := [0.15, 0.35, 0.65, 0.85]

  datatype Intensity = Slight | Strong

  /** A shift found by the appraisal. */
  datatype Shift = Shift(observer: string, target: string, axis: string, up: bool, intensity: Intensity)

  predicate ValidShift(s: Shift) {
    s.observer != s.target && s.axis in AXES
  }

  function SignedAmount(s: Shift): real {
    var magnitude := if s.intensity.Slight? then 0.10 else 0.22;
    if s.up then magnitude else -magnitude
  }

  function Clamp(x: real): real {
    if x < 0.0 then 0.0 else if x > 1.0 then 1.0 else x
  }

  /** Index of the band, low pole first: how many edges the value has reached. */
  function Band(value: real): nat {
    BandFrom(value, BAND_EDGES)
  }

  function BandFrom(value: real, edges: seq<real>): nat {
    if edges == [] then 0 else (if value >= edges[0] then 1 else 0) + BandFrom(value, edges[1..])
  }

  function Relax(d: Disposition): Disposition {
    d.(value := Clamp(d.value + d.gravity * (d.baseline - d.value)))
  }

  function Nudge(d: Disposition, amount: real): Disposition {
    d.(value := Clamp(d.value + amount))
  }

  function Neutral(): Disposition {
    Disposition(DEFAULT_BASELINE, DEFAULT_BASELINE, DEFAULT_GRAVITY)
  }

  /** The axes of a pair exist after its first recorded shift. */
  function Ensured(m: State, observer: string, target: string): State {
    map k | k in m.Keys + set a | a in AXES :: Dyad(observer, target, a) :: if k in m then m[k] else Neutral()
  }

  function Shifted(m: State, s: Shift): State {
    if !ValidShift(s) then m
    else
      var e, k := Ensured(m, s.observer, s.target), Dyad(s.observer, s.target, s.axis);
      e[k := Nudge(e[k], SignedAmount(s))]
  }

  function Integrated(m: State, shifts: seq<Shift>): State {
    if shifts == [] then m else Shifted(Integrated(m, shifts[..|shifts| - 1]), shifts[|shifts| - 1])
  }

  function Relaxed(m: State): State {
    map k | k in m :: Relax(m[k])
  }

  /** `_apply_disposition_feedback`: the shifts of the turn, then one step of gravity. */
  function Turn(m: State, shifts: seq<Shift>): State {
    Relaxed(Integrated(m, shifts))
  }

  class DispositionState {
    var perDyad: State

    constructor ()
      ensures perDyad == map[]
    {
      perDyad := map[];
    }

    method EnsureDyad(observer: string, target: string)
      modifies this
      ensures perDyad == Ensured(old(perDyad), observer, target)
    {
      for i := 0 to |AXES|
        invariant perDyad == map k | k in old(perDyad).Keys + set j | 0 <= j < i :: Dyad(observer, target, AXES[j]) ::
                               if k in old(perDyad) then old(perDyad)[k] else Neutral()
      {
        var key := Dyad(observer, target, AXES[i]);
        if key !in perDyad {
          perDyad := perDyad[key := Neutral()];
        }
      }
      assert (set j | 0 <= j < |AXES| :: Dyad(observer, target, AXES[j])) == set a | a in AXES :: Dyad(observer, target, a);
    }

    method IntegrateAppraisal(shifts: seq<Shift>)
      modifies this
      ensures perDyad == Integrated(old(perDyad), shifts)
    {
      for i := 0 to |shifts|
        invariant perDyad == Integrated(old(perDyad), shifts[..i])
      {
        assert shifts[..i + 1][..i] == shifts[..i];
        var s := shifts[i];
        if ValidShift(s) {
          EnsureDyad(s.observer, s.target);
          var key := Dyad(s.observer, s.target, s.axis);
          perDyad := perDyad[key := Nudge(perDyad[key], SignedAmount(s))];
        }
      }
      assert shifts[..|shifts|] == shifts;
    }

    method ApplyGravity()
      modifies this
      ensures perDyad == Relaxed(old(perDyad))
    {
      var rest := perDyad.Keys;
      while rest != {}
        invariant rest <= perDyad.Keys == old(perDyad).Keys
        invariant forall k | k in perDyad :: perDyad[k] == if k in rest then old(perDyad)[k] else Relax(old(perDyad)[k])
      {
        var k :| k in rest;
        perDyad := perDyad[k := Relax(perDyad[k])];
        rest := rest - {k};
      }
    }

    method ApplyFeedback(shifts: seq<Shift>)
      modifies this
      ensures perDyad == Turn(old(perDyad), shifts)
    {
      IntegrateAppraisal(shifts);
      ApplyGravity();
    }
  }

  // ---- bounds --------------------------------------------------------------

  predicate Unit(x: real) { 0.0 <= x <= 1.0 }

  predicate Sane(d: Disposition) {
    Unit(d.baseline) && Unit(d.value) && Unit(d.gravity)
  }

  predicate AllSane(m: State) {
    forall k | k in m :: Sane(m[k])
  }

  /** Where gravity leaves a scalar, wherever the turn's shifts had pushed it. */
  predicate Settled(d: Disposition) {
    d.gravity * d.baseline <= d.value <= 1.0 - d.gravity * (1.0 - d.baseline)
  }

  lemma Product(a: real, b: real)
    requires Unit(a) && Unit(b)
    ensures Unit(a * b)
  {
    assert a * b <= 1.0 * b by { assert (1.0 - a) * b >= 0.0; }
  }

  /** The point `g` of the way from `v` to `b`. */
  function Blend(g: real, v: real, b: real): real {
    (1.0 - g) * v + g * b
  }

  lemma BlendIsStep(g: real, v: real, b: real)
    ensures v + g * (b - v) == Blend(g, v, b)
  {
    assert g * (b - v) == g * b - g * v;
    assert (1.0 - g) * v == v - g * v;
  }

  lemma BlendBounds(g: real, v: real, b: real)
    requires Unit(g) && Unit(v) && Unit(b)
    ensures g * b <= Blend(g, v, b) <= 1.0 - g * (1.0 - b)
    ensures Unit(Blend(g, v, b))
  {
    Product(1.0 - g, v);
    Product(1.0 - g, 1.0 - v);
    Product(g, b);
    Product(g, 1.0 - b);
    assert (1.0 - g) * (1.0 - v) == 1.0 - g - (1.0 - g) * v;
    assert g * (1.0 - b) == g - g * b;
  }

  /** One step of gravity moves a scalar the gravity's share of the way; the clamp never acts. */
  lemma RelaxSettles(d: Disposition)
    requires Sane(d)
    ensures Sane(Relax(d)) && Settled(Relax(d))
    ensures Relax(d).value == (1.0 - d.gravity) * d.value + d.gravity * d.baseline
  {
    BlendIsStep(d.gravity, d.value, d.baseline);
    BlendBounds(d.gravity, d.value, d.baseline);
    assert Relax(d).value == Blend(d.gravity, d.value, d.baseline);
  }

  lemma {:induction false} IntegratedSane(m: State, shifts: seq<Shift>)
    requires AllSane(m)
    ensures AllSane(Integrated(m, shifts)) && m.Keys <= Integrated(m, shifts).Keys
  {
    if shifts != [] {
      IntegratedSane(m, shifts[..|shifts| - 1]);
    }
  }

  function Turns(m: State, turns: seq<seq<Shift>>): State {
    if turns == [] then m else Turn(Turns(m, turns[..|turns| - 1]), turns[|turns| - 1])
  }

  /** Over every sequence of appraised turns all scalars stay in [0, 1], and each turn ends with every
      scalar inside the band gravity draws around its baseline. */
  lemma {:induction false} ScalarsStayBounded(m: State, turns: seq<seq<Shift>>)
    requires AllSane(m)
    ensures AllSane(Turns(m, turns))
    ensures turns != [] ==> forall k | k in Turns(m, turns) :: Settled(Turns(m, turns)[k])
  {
    if turns != [] {
      var n := |turns| - 1;
      ScalarsStayBounded(m, turns[..n]);
      IntegratedSane(Turns(m, turns[..n]), turns[n]);
      var i := Integrated(Turns(m, turns[..n]), turns[n]);
      forall k | k in i ensures Sane(Relax(i[k])) && Settled(Relax(i[k])) { RelaxSettles(i[k]); }
    }
  }

  // ---- calm turns ----------------------------------------------------------

  function Pow(x: real, n: nat): real {
    if n == 0 then 1.0 else x * Pow(x, n - 1)
  }

  function Calm(d: Disposition, n: nat): Disposition {
    if n == 0 then d else Relax(Calm(d, n - 1))
  }

  /** A gap after one calm turn. */
  function Shrunk(g: real, gap: real): real {
    (1.0 - g) * gap
  }

  lemma RelaxGap(d: Disposition)
    requires Sane(d)
    ensures Relax(d).value - d.baseline == Shrunk(d.gravity, d.value - d.baseline)
  {
    RelaxSettles(d);
    var v, b, g := d.value, d.baseline, d.gravity;
    assert (1.0 - g) * v + g * b - b == (1.0 - g) * (v - b);
  }

  lemma ShrunkPow(g: real, p: real, gap: real)
    ensures Shrunk(g, p * gap) == ((1.0 - g) * p) * gap
  {
  }

  function Scaled(p: real, gap: real): real {
    p * gap
  }

  function GapAfter(g: real, gap: real, n: nat): real {
    if n == 0 then gap else Shrunk(g, GapAfter(g, gap, n - 1))
  }

  lemma {:induction false} CalmGap(d: Disposition, n: nat)
    requires Sane(d)
    ensures Sane(Calm(d, n)) && Calm(d, n).baseline == d.baseline && Calm(d, n).gravity == d.gravity
    ensures Calm(d, n).value - d.baseline == GapAfter(d.gravity, d.value - d.baseline, n)
  {
    if n > 0 {
      CalmGap(d, n - 1);
      RelaxGap(Calm(d, n - 1));
      RelaxSettles(Calm(d, n - 1));
    }
  }

  lemma {:induction false} GapIsPower(g: real, gap: real, n: nat)
    ensures GapAfter(g, gap, n) == Scaled(Pow(1.0 - g, n), gap)
  {
    if n > 0 {
      GapIsPower(g, gap, n - 1);
      ShrunkPow(g, Pow(1.0 - g, n - 1), gap);
    }
  }

  /** After n calm turns the gap to the baseline is exactly (1 - g)^n of what it was. */
  lemma GapShrinksGeometrically(d: Disposition, n: nat)
    requires Sane(d)
    ensures Sane(Calm(d, n)) && Calm(d, n).baseline == d.baseline && Calm(d, n).gravity == d.gravity
    ensures Calm(d, n).value - d.baseline == Scaled(Pow(1.0 - d.gravity, n), d.value - d.baseline)
  {
    CalmGap(d, n);
    GapIsPower(d.gravity, d.value - d.baseline, n);
  }

  lemma {:induction false} PowUnit(x: real, n: nat)
    requires Unit(x)
    ensures Unit(Pow(x, n))
  {
    if n > 0 {
      PowUnit(x, n - 1);
      Product(x, Pow(x, n - 1));
    }
  }

  lemma SameSign(p: real, gap: real)
    requires p >= 0.0
    ensures gap >= 0.0 ==> Scaled(p, gap) >= 0.0
    ensures gap <= 0.0 ==> Scaled(p, gap) <= 0.0
  {
  }

  lemma {:induction false} BandMonotone(x: real, y: real, edges: seq<real>)
    requires x <= y
    ensures BandFrom(x, edges) <= BandFrom(y, edges)
  {
    if edges != [] { BandMonotone(x, y, edges[1..]); }
  }

  /** One step of gravity moves a scalar towards its baseline and not past it. */
  lemma StepApproaches(d: Disposition)
    requires Sane(d)
    ensures d.value <= d.baseline ==> d.value <= Relax(d).value <= d.baseline
    ensures d.value >= d.baseline ==> d.value >= Relax(d).value >= d.baseline
  {
    RelaxGap(d);
    SameSign(1.0 - d.gravity, d.value - d.baseline);
    SameSign(d.gravity, d.value - d.baseline);
    assert Shrunk(d.gravity, d.value - d.baseline) == Scaled(1.0 - d.gravity, d.value - d.baseline);
    assert Shrunk(d.gravity, d.value - d.baseline) == d.value - d.baseline - Scaled(d.gravity, d.value - d.baseline);
  }

  /** The side of the baseline a scalar is on does not change over calm turns. */
  lemma CalmKeepsSide(d: Disposition, n: nat)
    requires Sane(d)
    ensures Sane(Calm(d, n)) && Calm(d, n).baseline == d.baseline
    ensures d.value <= d.baseline ==> Calm(d, n).value <= d.baseline
    ensures d.value >= d.baseline ==> Calm(d, n).value >= d.baseline
  {
    GapShrinksGeometrically(d, n);
    PowUnit(1.0 - d.gravity, n);
    SameSign(Pow(1.0 - d.gravity, n), d.value - d.baseline);
  }

  /** Calm turns never overshoot, and the band only ever moves towards the baseline's band. */
  lemma CalmApproachesBaseline(d: Disposition, n: nat)
    requires Sane(d)
    ensures var now, later := Calm(d, n), Calm(d, n + 1);
            && (d.value <= d.baseline ==>
                  now.value <= later.value <= d.baseline && Band(now.value) <= Band(later.value) <= Band(d.baseline))
            && (d.value >= d.baseline ==>
                  now.value >= later.value >= d.baseline && Band(now.value) >= Band(later.value) >= Band(d.baseline))
  {
    CalmKeepsSide(d, n);
    var now, later, b := Calm(d, n), Calm(d, n + 1), d.baseline;
    StepApproaches(now);
    if d.value >= b {
      BandMonotone(b, later.value, BAND_EDGES);
      BandMonotone(later.value, now.value, BAND_EDGES);
    }
    if d.value <= b {
      BandMonotone(later.value, b, BAND_EDGES);
      BandMonotone(now.value, later.value, BAND_EDGES);
    }
  }

  // ---- what the shifts of a turn do ----------------------------------------

  /** How far a turn's valid shifts of `k` push one way, before any clamp. */
  function Push(shifts: seq<Shift>, k: Dyad, up: bool): real {
    if shifts == [] then 0.0
    else
      var s := shifts[|shifts| - 1];
      Push(shifts[..|shifts| - 1], k, up) +
      (if Names(s, k) && s.up == up then (if s.intensity.Strong? then 0.22 else 0.10) else 0.0)
  }

  /** The shift moves this very scalar. */
  predicate Names(s: Shift, k: Dyad) {
    && s.observer == k.observer && s.target == k.target && s.axis == k.axis
    && s.observer != s.target && (s.axis == "trust" || s.axis == "warmth")
  }

  /** Some shift of the turn is about the pair of `k`. */
  ghost predicate Touched(shifts: seq<Shift>, k: Dyad) {
    exists s | s in shifts ::
      && s.observer == k.observer && s.target == k.target && s.observer != s.target
      && (s.axis == "trust" || s.axis == "warmth")
  }

  /** A scalar before the turn: neutral when the pair is new. */
  function Start(m: State, k: Dyad): Disposition {
    if k in m then m[k] else Disposition(0.5, 0.5, 0.25)
  }

  lemma TouchedSnoc(shifts: seq<Shift>, s: Shift, k: Dyad)
    ensures Touched(shifts + [s], k) <==> Touched(shifts, k) || Touched([s], k)
  {
    assert s in [s] && s in shifts + [s];
    forall x | x in shifts ensures x in shifts + [s] { }
  }

  /** One shift on one scalar. */
  lemma ShiftedExact(m: State, s: Shift, k: Dyad)
    ensures k in Shifted(m, s) <==> k in m || ((k.axis == "trust" || k.axis == "warmth") && Touched([s], k))
    ensures k in Shifted(m, s) ==>
              var d, size := Start(m, k), if s.intensity.Strong? then 0.22 else 0.10;
              Shifted(m, s)[k] ==
              if Names(s, k) then d.(value := Clamp(if s.up then d.value + size else d.value - size)) else d
  {
    assert s in [s];
    assert k.axis in AXES <==> k.axis == "trust" || k.axis == "warmth";
    assert s.axis in AXES <==> s.axis == "trust" || s.axis == "warmth";
  }

  /** A pair gets both its scalars with the first valid shift about it, and its set-points never move. */
  lemma {:induction false} PairsExact(m: State, shifts: seq<Shift>, k: Dyad)
    ensures k in Integrated(m, shifts) <==> k in m || ((k.axis == "trust" || k.axis == "warmth") && Touched(shifts, k))
    ensures k in Integrated(m, shifts) ==>
              var d := Integrated(m, shifts)[k];
              d.baseline == Start(m, k).baseline && d.gravity == Start(m, k).gravity
  {
    if shifts != [] {
      var n := |shifts| - 1;
      PairsExact(m, shifts[..n], k);
      assert shifts == shifts[..n] + [shifts[n]];
      TouchedSnoc(shifts[..n], shifts[n], k);
      ShiftedExact(Integrated(m, shifts[..n]), shifts[n], k);
    }
  }

  lemma {:induction false} PushSign(shifts: seq<Shift>, k: Dyad, up: bool)
    ensures Push(shifts, k, up) >= 0.0
  {
    if shifts != [] { PushSign(shifts[..|shifts| - 1], k, up); }
  }

  /** Shifts one way add up, and only the end of the scale stops them; nothing else moves. */
  lemma {:induction false} ShiftsAddUp(m: State, shifts: seq<Shift>, k: Dyad)
    requires AllSane(m) && k in Integrated(m, shifts)
    ensures var from, to := Start(m, k).value, Integrated(m, shifts)[k].value;
            var up, down := Push(shifts, k, true), Push(shifts, k, false);
            && (down == 0.0 ==> to == if from + up > 1.0 then 1.0 else from + up)
            && (up == 0.0 ==> to == if from - down < 0.0 then 0.0 else from - down)
  {
    if shifts != [] {
      var n := |shifts| - 1;
      PushSign(shifts[..n], k, true);
      PushSign(shifts[..n], k, false);
      IntegratedSane(m, shifts[..n]);
      ShiftedExact(Integrated(m, shifts[..n]), shifts[n], k);
      if k in Integrated(m, shifts[..n]) {
        ShiftsAddUp(m, shifts[..n], k);
      } else {
        PairsExact(m, shifts[..n], k);
        UntouchedIsUnpushed(shifts[..n], k, true);
        UntouchedIsUnpushed(shifts[..n], k, false);
      }
    }
  }

  lemma {:induction false} UntouchedIsUnpushed(shifts: seq<Shift>, k: Dyad, up: bool)
    requires !Touched(shifts, k)
    ensures Push(shifts, k, up) == 0.0
  {
    if shifts != [] {
      var n := |shifts| - 1;
      assert shifts == shifts[..n] + [shifts[n]] && shifts[n] in shifts;
      TouchedSnoc(shifts[..n], shifts[n], k);
      UntouchedIsUnpushed(shifts[..n], k, up);
    }
  }

  lemma RelaxIsBlend(d: Disposition)
    requires Sane(d)
    ensures Relax(d) == Disposition(d.baseline, Blend(d.gravity, d.value, d.baseline), d.gravity)
  {
    BlendIsStep(d.gravity, d.value, d.baseline);
    BlendBounds(d.gravity, d.value, d.baseline);
  }

  /** A whole turn on one scalar: it exists when it did before or the turn touched its pair, keeps its
      set-points, is pushed by the shifts that name it and then eased by gravity, and does not feel any
      other shift of the turn. */
  lemma TurnExact(m: State, shifts: seq<Shift>, k: Dyad)
    requires AllSane(m)
    ensures k in Turn(m, shifts) <==> k in m || ((k.axis == "trust" || k.axis == "warmth") && Touched(shifts, k))
    ensures k in Turn(m, shifts) ==>
              var d, r := Start(m, k), Turn(m, shifts)[k];
              var up, down := Push(shifts, k, true), Push(shifts, k, false);
              var high := if d.value + up > 1.0 then 1.0 else d.value + up;
              var low := if d.value - down < 0.0 then 0.0 else d.value - down;
              && r.baseline == d.baseline && r.gravity == d.gravity
              && (down == 0.0 ==> r.value == Blend(d.gravity, high, d.baseline))
              && (up == 0.0 ==> r.value == Blend(d.gravity, low, d.baseline))
  {
    PairsExact(m, shifts, k);
    if k in Turn(m, shifts) {
      ShiftsAddUp(m, shifts, k);
      IntegratedSane(m, shifts);
      RelaxIsBlend(Integrated(m, shifts)[k]);
    }
  }

  /** The five bands of the scale. */
  lemma BandExact(value: real)
    ensures Band(value) == if value < 0.15 then 0 else if value < 0.35 then 1
                           else if value < 0.65 then 2 else if value < 0.85 then 3 else 4
  {
    var e2, e3, e4 := [0.35, 0.65, 0.85], [0.65, 0.85], [0.85];
    assert e4[1..] == [] && e3[1..] == e4 && e2[1..] == e3 && BAND_EDGES[1..] == e2;
    assert BandFrom(value, e4) == if value < 0.85 then 0 else 1;
    assert BandFrom(value, e3) == if value < 0.65 then 0 else if value < 0.85 then 1 else 2;
    assert BandFrom(value, e2) == if value < 0.35 then 0 else 1 + BandFrom(value, e3);
  }

  /** A new pair flips its band with one strong shift, either way, and one calm turn undoes it; a slight
      shift flips nothing. */
  lemma OneStrongShiftFlips(m: State, s: Shift)
    requires AllSane(m) && Names(s, Dyad(s.observer, s.target, s.axis)) && Dyad(s.observer, s.target, s.axis) !in m
    ensures var k := Dyad(s.observer, s.target, s.axis);
            var after := Turn(m, [s]);
            && k in after && k in Turn(after, [])
            && Band(after[k].value) == (if s.intensity.Slight? then 2 else if s.up then 3 else 1)
            && Band(Turn(after, [])[k].value) == 2
  {
    var k, after := Dyad(s.observer, s.target, s.axis), Turn(m, [s]);
    assert s in [s] && [s][..0] == [];
    TurnExact(m, [s], k);
    IntegratedSane(m, [s]);
    ScalarsStayBounded(m, [[s]]);
    assert [[s]][..0] == [];
    assert Turns(m, [[s]]) == after;
    TurnExact(after, [], k);
    assert Push([], k, true) == 0.0 && Push([], k, false) == 0.0;
    BandExact(after[k].value);
    BandExact(Turn(after, [])[k].value);
  }
}
