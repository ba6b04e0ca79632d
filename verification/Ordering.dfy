/** Python's string order (by code point) and `sorted` on a set of strings. */
module Ordering {
  predicate Le(a: string, b: string) {
    a == "" || (b != "" && (a[0] < b[0] || (a[0] == b[0] && Le(a[1..], b[1..]))))
  }

  lemma {:induction false} LeTotal(a: string, b: string)
    ensures Le(a, b) || Le(b, a)
  {
    if a != "" && b != "" && a[0] == b[0] { LeTotal(a[1..], b[1..]); }
  }

  lemma {:induction false} LeAntisymmetric(a: string, b: string)
    requires Le(a, b) && Le(b, a)
    ensures a == b
  {
    if a != "" {
      LeAntisymmetric(a[1..], b[1..]);
      assert a == [a[0]] + a[1..] && b == [b[0]] + b[1..];
    }
  }

  lemma {:induction false} LeTransitive(a: string, b: string, c: string)
    requires Le(a, b) && Le(b, c)
    ensures Le(a, c)
  {
    if a != "" && a[0] == b[0] && b[0] == c[0] { LeTransitive(a[1..], b[1..], c[1..]); }
  }

  /** The strings agree before `k`, and there the first has the smaller character. */
  ghost predicate Precedes(a: string, b: string, k: int) {
    0 <= k < |a| && k < |b| && a[k] < b[k] && forall i | 0 <= i < k :: a[i] == b[i]
  }

  /** One string comes before another exactly when it begins it, or has the smaller character where they first
      differ. */
  lemma {:induction false} LeExact(a: string, b: string)
    ensures Le(a, b) <==> a <= b || exists k :: Precedes(a, b, k)
  {
    if a != "" && b != "" {
      if a[0] != b[0] {
        assert Precedes(a, b, 0) <==> a[0] < b[0];
      } else {
        var x, y := a[1..], b[1..];
        assert a == [a[0]] + x && b == [b[0]] + y;
        LeExact(x, y);
        if k :| Precedes(x, y, k) {
          assert Precedes(a, b, k + 1);
        }
        if k :| Precedes(a, b, k) {
          assert forall i | 0 <= i < k - 1 :: x[i] == a[i + 1] && y[i] == b[i + 1];
          assert Precedes(x, y, k - 1);
        }
      }
    }
  }

  ghost predicate IsLeast(k: string, s: set<string>) {
    k in s && forall o | o in s :: Le(k, o)
  }

  lemma {:induction false} LeastExists(s: set<string>)
    requires s != {}
    ensures exists k :: IsLeast(k, s)
  {
    var x :| x in s;
    var rest := s - {x};
    if rest == {} {
      LeTotal(x, x);
      assert s == {x};
      assert IsLeast(x, s);
    } else {
      LeastExists(rest);
      var k :| IsLeast(k, rest);
      LeTotal(x, k);
      LeTotal(x, x);
      var m := if Le(x, k) then x else k;
      forall o | o in s ensures Le(m, o) {
        if o != x && m == x { LeTransitive(x, k, o); }
      }
      assert IsLeast(m, s);
    }
  }

  ghost function Least(s: set<string>): (k: string)
    requires s != {}
    ensures IsLeast(k, s)
  {
    LeastExists(s);
    var k :| IsLeast(k, s);
    k
  }

  lemma LeastUnique(k: string, s: set<string>)
    requires IsLeast(k, s)
    ensures k == Least(s)
  {
    LeAntisymmetric(k, Least(s));
  }

  /** `sorted(s)`. */
  ghost function Sorted(s: set<string>): seq<string> {
    if s == {} then [] else [Least(s)] + Sorted(s - {Least(s)})
  }

  lemma {:induction false} SortedIsSorted(s: set<string>)
    ensures |Sorted(s)| == |s|
    ensures forall k :: k in Sorted(s) <==> k in s
    ensures forall i, j | 0 <= i < j < |Sorted(s)| :: Sorted(s)[i] != Sorted(s)[j] && Le(Sorted(s)[i], Sorted(s)[j])
  {
    if s != {} {
      var k, rest := Least(s), s - {Least(s)};
      var r := Sorted(rest);
      SortedIsSorted(rest);
      assert Sorted(s) == [k] + r;
      forall i, j | 0 <= i < j < |[k] + r| ensures ([k] + r)[i] != ([k] + r)[j] && Le(([k] + r)[i], ([k] + r)[j]) {
        assert r[j - 1] in r && r[j - 1] in rest;
      }
    }
  }

  /** The list `sorted` builds, taken out of the set one least element at a time. */
  method SortSet(s: set<string>) returns (r: seq<string>)
    ensures r == Sorted(s)
  {
    r := [];
    var rest := s;
    while rest != {}
      invariant Sorted(s) == r + Sorted(rest)
      decreases |rest|
    {
      var k := PickLeast(rest);
      r, rest := r + [k], rest - {k};
    }
  }

  method PickLeast(s: set<string>) returns (k: string)
    requires s != {}
    ensures k == Least(s)
  {
    LeastExists(s);
    assert exists k :: k in s && forall o | o in s :: Le(k, o) by {
      var l :| IsLeast(l, s);
    }
    k :| k in s && forall o | o in s :: Le(k, o);
    LeastUnique(k, s);
  }
}
