/** Turn numbers in a history: the retained window of a compaction and the token-budget trim. */
module History {
  import opened Text
  import opened Model

  type Records = seq<TurnRecord>

  ghost predicate Chronological(h: Records) {
    forall i, j | 0 <= i < j < |h| :: h[i].turn <= h[j].turn
  }

  /** `_next_turn_number`. */
  function NextTurn(h: Records): int {
    if h == [] then 1 else h[|h| - 1].turn + 1
  }

  /** `list(dict.fromkeys(record.turn_number ...))`. */
  function DistinctTurns(h: Records): seq<int> {
    if h == [] then []
    else
      var r := DistinctTurns(h[..|h| - 1]);
      if h[|h| - 1].turn in r then r else r + [h[|h| - 1].turn]
  }

  lemma {:induction false} DistinctTurnsExact(h: Records)
    ensures forall i | 0 <= i < |h| :: h[i].turn in DistinctTurns(h)
    ensures forall t | t in DistinctTurns(h) :: exists i :: 0 <= i < |h| && h[i].turn == t
    ensures forall i, j | 0 <= i < j < |DistinctTurns(h)| :: DistinctTurns(h)[i] != DistinctTurns(h)[j]
  {
    if h != [] {
      var n := |h| - 1;
      DistinctTurnsExact(h[..n]);
      forall i | 0 <= i < |h| ensures h[i].turn in DistinctTurns(h) {
        if i < n { assert h[..n][i].turn in DistinctTurns(h[..n]); }
      }
      forall t | t in DistinctTurns(h) ensures exists i :: 0 <= i < |h| && h[i].turn == t {
        if t in DistinctTurns(h[..n]) {
          var i :| 0 <= i < |h[..n]| && h[..n][i].turn == t;
          assert h[i].turn == t;
        } else {
          assert h[n].turn == t;
        }
      }
    }
  }

  function Before(h: Records, cutoff: int): Records {
    if h == [] then []
    else Before(h[..|h| - 1], cutoff) + if h[|h| - 1].turn < cutoff then [h[|h| - 1]] else []
  }

  function From(h: Records, cutoff: int): Records {
    if h == [] then []
    else From(h[..|h| - 1], cutoff) + if h[|h| - 1].turn >= cutoff then [h[|h| - 1]] else []
  }

  /** On a chronological history a cutoff splits it in two. */
  lemma {:induction false} Split(h: Records, cutoff: int)
    requires Chronological(h)
    ensures h == Before(h, cutoff) + From(h, cutoff)
  {
    if h != [] {
      var n := |h| - 1;
      Split(h[..n], cutoff);
      assert h == h[..n] + [h[n]];
      if h[n].turn < cutoff {
        forall i | 0 <= i < n ensures h[..n][i].turn < cutoff {
          assert h[i].turn <= h[n].turn;
        }
        AllBefore(h[..n], cutoff);
      }
    }
  }

  lemma {:induction false} FromMembers(h: Records, cutoff: int)
    ensures forall r :: r in From(h, cutoff) <==> r in h && r.turn >= cutoff
  {
    if h != [] {
      FromMembers(h[..|h| - 1], cutoff);
      assert h == h[..|h| - 1] + [h[|h| - 1]];
    }
  }

  lemma {:induction false} AllBefore(h: Records, cutoff: int)
    requires forall i | 0 <= i < |h| :: h[i].turn < cutoff
    ensures Before(h, cutoff) == h && From(h, cutoff) == []
  {
    if h != [] {
      var n := |h| - 1;
      assert h == h[..n] + [h[n]];
      AllBefore(h[..n], cutoff);
    }
  }

  lemma {:induction false} AllFrom(h: Records, cutoff: int)
    requires forall i | 0 <= i < |h| :: h[i].turn >= cutoff
    ensures From(h, cutoff) == h && Before(h, cutoff) == []
  {
    if h != [] {
      var n := |h| - 1;
      assert h == h[..n] + [h[n]];
      AllFrom(h[..n], cutoff);
    }
  }

  lemma FilterSnoc(h: Records, r: TurnRecord, cutoff: int)
    ensures Before(h + [r], cutoff) == Before(h, cutoff) + if r.turn < cutoff then [r] else []
    ensures From(h + [r], cutoff) == From(h, cutoff) + if r.turn >= cutoff then [r] else []
  {
    var more := h + [r];
    assert more[..|more| - 1] == h && more[|more| - 1] == r;
  }

  lemma {:induction false} BeforeAppend(a: Records, b: Records, cutoff: int)
    ensures Before(a + b, cutoff) == Before(a, cutoff) + Before(b, cutoff)
  {
    if b == [] {
      assert a + b == a;
    } else {
      var n := |b| - 1;
      BeforeAppend(a, b[..n], cutoff);
      BeforeAppendSnoc(a, b[..n], b[n], cutoff);
      assert b == b[..n] + [b[n]];
    }
  }

  lemma BeforeAppendSnoc(a: Records, init: Records, r: TurnRecord, cutoff: int)
    requires Before(a + init, cutoff) == Before(a, cutoff) + Before(init, cutoff)
    ensures Before(a + (init + [r]), cutoff) == Before(a, cutoff) + Before(init + [r], cutoff)
  {
    FilterSnoc(a + init, r, cutoff);
    FilterSnoc(init, r, cutoff);
    assert a + (init + [r]) == (a + init) + [r];
  }

  // ---- the retained window -------------------------------------------------

  /** The configured window, halved under real context pressure so that compaction is not blocked. */
  function KeepRecent(configured: nat, turns: nat, pressure: bool): nat {
    if pressure && 8 < turns <= configured then (if turns / 2 > 4 then turns / 2 else 4) else configured
  }

  function Cutoff(h: Records, keep: nat): int
    requires 1 <= keep <= |DistinctTurns(h)|
  {
    DistinctTurns(h)[|DistinctTurns(h)| - keep]
  }

  lemma {:induction false} DistinctIncreasing(h: Records)
    requires Chronological(h)
    ensures forall i, j | 0 <= i < j < |DistinctTurns(h)| :: DistinctTurns(h)[i] < DistinctTurns(h)[j]
  {
    if h != [] {
      var n := |h| - 1;
      DistinctIncreasing(h[..n]);
      DistinctTurnsExact(h[..n]);
      var d := DistinctTurns(h[..n]);
      forall k | 0 <= k < |d| ensures d[k] <= h[n].turn {
        assert d[k] in d;
        var i :| 0 <= i < n && h[..n][i].turn == d[k];
      }
      forall k | 0 <= k < |d| && h[n].turn !in d ensures d[k] < h[n].turn {
        assert d[k] in d;
      }
    }
  }

  lemma DistinctSnoc(h: Records, r: TurnRecord)
    ensures DistinctTurns(h + [r]) == if r.turn in DistinctTurns(h) then DistinctTurns(h) else DistinctTurns(h) + [r.turn]
  {
    var more := h + [r];
    assert more[..|more| - 1] == h;
  }

  lemma AtLeastSnoc(ts: seq<int>, t: int, cutoff: int)
    ensures AtLeast(ts + [t], cutoff) == AtLeast(ts, cutoff) + if t >= cutoff then [t] else []
  {
    var more := ts + [t];
    assert more[..|more| - 1] == ts;
  }

  function AtLeast(ts: seq<int>, cutoff: int): seq<int> {
    if ts == [] then []
    else AtLeast(ts[..|ts| - 1], cutoff) + if ts[|ts| - 1] >= cutoff then [ts[|ts| - 1]] else []
  }

  lemma {:induction false} DistinctOfFrom(h: Records, cutoff: int)
    ensures DistinctTurns(From(h, cutoff)) == AtLeast(DistinctTurns(h), cutoff)
    ensures forall t :: t in AtLeast(DistinctTurns(h), cutoff) <==> t in DistinctTurns(h) && t >= cutoff
  {
    if h != [] {
      var n := |h| - 1;
      DistinctOfFrom(h[..n], cutoff);
      assert h == h[..n] + [h[n]];
      DistinctSnoc(h[..n], h[n]);
      DistinctSnoc(From(h[..n], cutoff), h[n]);
      AtLeastSnoc(DistinctTurns(h[..n]), h[n].turn, cutoff);
      if h[n].turn >= cutoff {
        assert From(h, cutoff) == From(h[..n], cutoff) + [h[n]];
      } else {
        assert From(h, cutoff) == From(h[..n], cutoff);
      }
    }
  }

  lemma {:induction false} AtLeastOfIncreasing(ts: seq<int>, j: nat)
    requires j < |ts| && forall i, k | 0 <= i < k < |ts| :: ts[i] < ts[k]
    ensures AtLeast(ts, ts[j]) == ts[j..]
  {
    var n := |ts| - 1;
    if j < n {
      AtLeastOfIncreasing(ts[..n], j);
      assert ts[..n][j..] + [ts[n]] == ts[j..];
    } else {
      AtLeastEmpty(ts[..n], ts[n]);
    }
  }

  lemma {:induction false} AtLeastEmpty(ts: seq<int>, cutoff: int)
    requires forall i | 0 <= i < |ts| :: ts[i] < cutoff
    ensures AtLeast(ts, cutoff) == []
  {
    if ts != [] {
      AtLeastEmpty(ts[..|ts| - 1], cutoff);
    }
  }

  /** Compaction evicts a non-empty prefix and retains exactly the last `keep` turn numbers. */
  lemma WindowSplit(h: Records, keep: nat)
    requires Chronological(h) && 1 <= keep < |DistinctTurns(h)|
    ensures var c := Cutoff(h, keep);
            && h == Before(h, c) + From(h, c)
            && Before(h, c) != []
            && DistinctTurns(From(h, c)) == DistinctTurns(h)[|DistinctTurns(h)| - keep..]
  {
    var d, c := DistinctTurns(h), Cutoff(h, keep);
    Split(h, c);
    WindowTurns(h, |d| - keep);
    DistinctIncreasing(h);
    if Before(h, c) == [] {
      OldestIsBefore(h, c);
    }
  }

  lemma WindowTurns(h: Records, j: nat)
    requires Chronological(h) && j < |DistinctTurns(h)|
    ensures DistinctTurns(From(h, DistinctTurns(h)[j])) == DistinctTurns(h)[j..]
  {
    DistinctIncreasing(h);
    DistinctOfFrom(h, DistinctTurns(h)[j]);
    AtLeastOfIncreasing(DistinctTurns(h), j);
  }

  lemma OldestIsBefore(h: Records, cutoff: int)
    requires Chronological(h) && Before(h, cutoff) == [] && DistinctTurns(h) != []
    ensures DistinctTurns(h)[0] >= cutoff
  {
    Split(h, cutoff);
    FromMembers(h, cutoff);
    DistinctTurnsExact(h);
    var first := DistinctTurns(h)[0];
    assert first in DistinctTurns(h);
    var i :| 0 <= i < |h| && h[i].turn == first;
    assert h[i] in From(h, cutoff);
  }

  // ---- trim_history_by_tokens ----------------------------------------------

  function Cost(rec: TurnRecord): nat {
    Length(rec.content) / 4
  }

  function TotalCost(h: Records): nat {
    if h == [] then 0 else Cost(h[0]) + TotalCost(h[1..])
  }

  /** A record costs a token for every four characters of its text, rounded down. */
  lemma CostExact(rec: TurnRecord)
    ensures 4 * Cost(rec) <= Length(rec.content) < 4 * Cost(rec) + 4
  {
  }

  lemma {:induction false} LongerCostsMore(h: Records, k: nat)
    requires k <= |h|
    ensures TotalCost(h[k..]) <= TotalCost(h)
  {
    if k > 0 {
      LongerCostsMore(h[1..], k - 1);
      assert h[1..][k - 1..] == h[k..];
    }
  }

  /** The longest suffix within the budget, or the newest record alone. */
  method TrimHistory(history: Records, contextMax: nat, reserved: int) returns (kept: Records)
    ensures var budget := (contextMax as real * 0.7).Floor - reserved;
            && (budget <= 0 || history == [] ==> kept == [])
            && (budget > 0 && history != [] ==>
                  exists k :: 0 <= k < |history| && kept == history[k..]
                    && (TotalCost(kept) <= budget || k == |history| - 1)
                    && forall j | 0 <= j < k :: TotalCost(history[j..]) > budget)
  {
    var budget := (contextMax as real * 0.7).Floor - reserved;
    if budget <= 0 || history == [] { return []; }
    var selected: Records := [];
    var used := 0;
    var i := |history|;
    while i > 0
      invariant 0 <= i <= |history|
      invariant selected == history[i..] && used == TotalCost(history[i..])
      invariant i < |history| - 1 ==> used <= budget
    {
      var rec := history[i - 1];
      assert history[i - 1..] == [rec] + history[i..];
      if selected != [] && used + Cost(rec) > budget {
        forall j | 0 <= j < i ensures TotalCost(history[j..]) > budget {
          LongerCostsMore(history[j..], i - 1 - j);
          assert history[j..][i - 1 - j..] == history[i - 1..];
        }
        return selected;
      }
      selected := [rec] + selected;
      used := used + Cost(rec);
      i := i - 1;
    }
    return selected;
  }
}
