/** Sizes and maxima of finite integer sets. */
module Ints {
  lemma Member<T>(s: set<T>) returns (x: T)
    requires s != {}
    ensures x in s
  {
    x :| x in s;
  }

  lemma {:induction false} LatestExists(s: set<int>)
    requires s != {}
    ensures exists m :: m in s && forall t | t in s :: t <= m
  {
    var x := Member(s);
    if s - {x} == {} {
      assert s == {x};
    } else {
      LatestExists(s - {x});
      var m :| m in s - {x} && forall t | t in s - {x} :: t <= m;
      var top := if x <= m then m else x;
      forall t | t in s ensures t <= top {
        assert t == x || t in s - {x};
      }
      assert top in s;
    }
  }

  method Latest(s: set<int>) returns (m: int)
    requires s != {}
    ensures m in s && forall t | t in s :: t <= m
  {
    LatestExists(s);
    m :| m in s && forall t | t in s :: t <= m;
  }

  lemma {:induction false} SubsetSize(a: set<int>, b: set<int>)
    requires a <= b
    ensures |a| <= |b|
  {
    if a != {} {
      var x := Member(a);
      SubsetSize(a - {x}, b - {x});
    }
  }

  lemma {:induction false} IntervalSize(s: set<int>, lo: int, hi: int)
    requires forall t | t in s :: lo <= t < hi
    ensures |s| <= if lo <= hi then hi - lo else 0
    decreases hi - lo
  {
    if lo < hi {
      IntervalSize(s - {hi - 1}, lo, hi - 1);
    } else if s != {} {
      var t := Member(s);
    }
  }
}
