/** JSON values as Python holds them, with Python's notion of equality. */
module Json {
  datatype Json =
    | Null
    | Bool(b: bool)
    | Int(i: int)
    | Float(r: real)
    | Str(s: string)
    | Arr(items: seq<Json>)
    | Obj(fields: map<string, Json>)

  predicate IsNumeric(v: Json) {
    v.Bool? || v.Int? || v.Float?
  }

  /** The numeric value Python compares: True is 1 and 1 is 1.0. */
  function NumericValue(v: Json): real
    requires IsNumeric(v)
  {
    match v
    case Bool(b) => if b then 1.0 else 0.0
    case Int(i) => i as real
    case Float(r) => r
  }

  /** Python's `==` on JSON values: numbers compare across int, float and bool. */
  predicate PyEq(a: Json, b: Json)
    decreases a
  {
    if IsNumeric(a) && IsNumeric(b) then NumericValue(a) == NumericValue(b)
    else
      match (a, b)
      case (Null, Null) => true
      case (Str(s), Str(t)) => s == t
      case (Arr(xs), Arr(ys)) => |xs| == |ys| && forall i | 0 <= i < |xs| :: PyEq(xs[i], ys[i])
      case (Obj(m), Obj(n)) => m.Keys == n.Keys && forall k | k in m :: PyEq(m[k], n[k])
      case (_, _) => false
  }

  lemma {:induction false} PyEqReflexive(a: Json)
    ensures PyEq(a, a)
  {
    match a
    case Arr(xs) =>
      forall i | 0 <= i < |xs| ensures PyEq(xs[i], xs[i]) { PyEqReflexive(xs[i]); }
    case Obj(m) =>
      forall k | k in m ensures PyEq(m[k], m[k]) { PyEqReflexive(m[k]); }
    case _ =>
  }

  lemma {:induction false} PyEqSymmetric(a: Json, b: Json)
    requires PyEq(a, b)
    ensures PyEq(b, a)
    decreases a
  {
    match (a, b)
    case (Arr(xs), Arr(ys)) =>
      forall i | 0 <= i < |ys| ensures PyEq(ys[i], xs[i]) { PyEqSymmetric(xs[i], ys[i]); }
    case (Obj(m), Obj(n)) =>
      forall k | k in n ensures PyEq(n[k], m[k]) { assert k in m; PyEqSymmetric(m[k], n[k]); }
    case (_, _) =>
  }

  lemma {:induction false} PyEqTransitive(a: Json, b: Json, c: Json)
    requires PyEq(a, b) && PyEq(b, c)
    ensures PyEq(a, c)
    decreases a
  {
    match a
    case Arr(xs) =>
      forall i | 0 <= i < |xs| ensures PyEq(xs[i], c.items[i]) { PyEqTransitive(xs[i], b.items[i], c.items[i]); }
    case Obj(m) =>
      forall k | k in m ensures PyEq(m[k], c.fields[k]) { PyEqTransitive(m[k], b.fields[k], c.fields[k]); }
    case _ =>
  }

  // ---- against JSON's own equality -----------------------------------------

  /** Equality of JSON values: numbers by value, so 1 is 1.0, and a boolean is never a number. */
  predicate JsonEq(a: Json, b: Json)
    decreases a
  {
    match (a, b)
    case (Arr(xs), Arr(ys)) => |xs| == |ys| && forall i | 0 <= i < |xs| :: JsonEq(xs[i], ys[i])
    case (Obj(m), Obj(n)) => m.Keys == n.Keys && forall k | k in m :: JsonEq(m[k], n[k])
    case (_, _) => a.Bool? == b.Bool? && PyEq(a, b)
  }

  /** Somewhere both trees reach, one holds a boolean and the other a number. */
  predicate BoolMeetsNumber(a: Json, b: Json)
    decreases a
  {
    match (a, b)
    case (Arr(xs), Arr(ys)) => exists i | 0 <= i < |xs| :: i < |ys| && BoolMeetsNumber(xs[i], ys[i])
    case (Obj(m), Obj(n)) => exists k | k in m :: k in n && BoolMeetsNumber(m[k], n[k])
    case (_, _) => IsNumeric(a) && IsNumeric(b) && a.Bool? != b.Bool?
  }

  /** Python's equality is JSON's exactly where no boolean meets a number. */
  lemma {:induction false} JsonEqExact(a: Json, b: Json)
    ensures JsonEq(a, b) <==> PyEq(a, b) && !BoolMeetsNumber(a, b)
    decreases a
  {
    match (a, b)
    case (Arr(xs), Arr(ys)) =>
      forall i | 0 <= i < |xs| && i < |ys| ensures JsonEq(xs[i], ys[i]) <==> PyEq(xs[i], ys[i]) && !BoolMeetsNumber(xs[i], ys[i]) {
        JsonEqExact(xs[i], ys[i]);
      }
    case (Obj(m), Obj(n)) =>
      forall k | k in m && k in n ensures JsonEq(m[k], n[k]) <==> PyEq(m[k], n[k]) && !BoolMeetsNumber(m[k], n[k]) {
        JsonEqExact(m[k], n[k]);
      }
    case (_, _) =>
  }

  lemma {:induction false} JsonEqReflexive(a: Json)
    ensures JsonEq(a, a)
  {
    match a
    case Arr(xs) =>
      forall i | 0 <= i < |xs| ensures JsonEq(xs[i], xs[i]) { JsonEqReflexive(xs[i]); }
    case Obj(m) =>
      forall k | k in m ensures JsonEq(m[k], m[k]) { JsonEqReflexive(m[k]); }
    case _ =>
  }

  /** A tree without booleans, zeros and ones. */
  predicate Unambiguous(a: Json) {
    match a
    case Arr(xs) => forall i | 0 <= i < |xs| :: Unambiguous(xs[i])
    case Obj(m) => forall k | k in m :: Unambiguous(m[k])
    case _ => !IsNumeric(a) || (NumericValue(a) != 0.0 && NumericValue(a) != 1.0)
  }

  lemma {:induction false} UnambiguousMeetsNone(v: Json, a: Json)
    requires Unambiguous(a) && PyEq(v, a)
    ensures !BoolMeetsNumber(v, a)
    decreases a
  {
    match (v, a)
    case (Arr(xs), Arr(ys)) =>
      forall i | 0 <= i < |ys| ensures !BoolMeetsNumber(xs[i], ys[i]) { UnambiguousMeetsNone(xs[i], ys[i]); }
    case (Obj(m), Obj(n)) =>
      forall k | k in n ensures !BoolMeetsNumber(m[k], n[k]) { assert k in m; UnambiguousMeetsNone(m[k], n[k]); }
    case (_, _) =>
  }

  /** Another reading of an ambiguous tree: equal for Python, different as JSON. */
  lemma {:induction false} OtherReading(a: Json) returns (v: Json)
    requires !Unambiguous(a)
    ensures PyEq(v, a) && BoolMeetsNumber(v, a)
    decreases a
  {
    match a
    case Arr(xs) =>
      var i :| 0 <= i < |xs| && !Unambiguous(xs[i]);
      var w := OtherReading(xs[i]);
      v := Arr(xs[i := w]);
      forall j | 0 <= j < |xs| ensures PyEq(v.items[j], xs[j]) { PyEqReflexive(xs[j]); }
      assert BoolMeetsNumber(v.items[i], xs[i]);
    case Obj(m) =>
      var k :| k in m && !Unambiguous(m[k]);
      var w := OtherReading(m[k]);
      v := Obj(m[k := w]);
      forall j | j in m ensures PyEq(v.fields[j], m[j]) { PyEqReflexive(m[j]); }
      assert BoolMeetsNumber(v.fields[k], m[k]);
    case Bool(b) => v := Int(if b then 1 else 0);
    case Int(n) => v := Bool(n == 1);
    case Float(r) => v := Bool(r == 1.0);
    case Null => assert false;
    case Str(_) => assert false;
  }

  lemma UnambiguousIsStrict(v: Json, a: Json)
    requires Unambiguous(a)
    ensures PyEq(v, a) <==> JsonEq(v, a)
  {
    JsonEqExact(v, a);
    if PyEq(v, a) { UnambiguousMeetsNone(v, a); }
  }

  /** Comparing with a fixed tree means the same to Python and to JSON, for every value, exactly when the
      tree holds no boolean, zero or one. */
  lemma ComparisonIsStrict(a: Json)
    ensures (forall v :: PyEq(v, a) <==> JsonEq(v, a)) <==> Unambiguous(a)
  {
    if Unambiguous(a) {
      forall v ensures PyEq(v, a) <==> JsonEq(v, a) {
        UnambiguousIsStrict(v, a);
      }
    } else {
      var v := OtherReading(a);
      JsonEqExact(v, a);
    }
  }

  lemma {:induction false} JsonEqTransitive(a: Json, b: Json, c: Json)
    requires JsonEq(a, b) && JsonEq(b, c)
    ensures JsonEq(a, c)
    decreases a
  {
    match a
    case Arr(xs) =>
      forall i | 0 <= i < |xs| ensures JsonEq(xs[i], c.items[i]) { JsonEqTransitive(xs[i], b.items[i], c.items[i]); }
    case Obj(m) =>
      forall k | k in m ensures JsonEq(m[k], c.fields[k]) { JsonEqTransitive(m[k], b.fields[k], c.fields[k]); }
    case _ =>
  }

  /** `v` is `x` with some of its booleans read as the numbers they equal and some of its zeros and ones as
      booleans; everything else is literally the same. */
  predicate Reads(v: Json, x: Json)
    decreases x
  {
    match (v, x)
    case (Arr(vs), Arr(xs)) => |vs| == |xs| && forall i | 0 <= i < |xs| :: Reads(vs[i], xs[i])
    case (Obj(m), Obj(n)) => m.Keys == n.Keys && forall k | k in n :: Reads(m[k], n[k])
    case (Int(i), Bool(b)) => i == if b then 1 else 0
    case (Bool(b), _) => v == x || (IsNumeric(x) && NumericValue(x) == NumericValue(v))
    case (_, _) => v == x
  }

  lemma {:induction false} ReadsEqual(v: Json, x: Json)
    requires Reads(v, x)
    ensures PyEq(v, x)
    decreases x
  {
    match (v, x)
    case (Arr(vs), Arr(xs)) =>
      forall i | 0 <= i < |xs| ensures PyEq(vs[i], xs[i]) { ReadsEqual(vs[i], xs[i]); }
    case (Obj(m), Obj(n)) =>
      forall k | k in m ensures PyEq(m[k], n[k]) { ReadsEqual(m[k], n[k]); }
    case (_, _) =>
  }

  /** A plain `x` read as a boolean exactly if `v` is one. */
  function ScalarReading(v: Json, x: Json): Json {
    match x
    case Bool(b) => if v.Bool? then x else Int(if b then 1 else 0)
    case _ => if v.Bool? then v else x
  }

  /** Every value Python calls equal to `x` is, as JSON, one of its readings. */
  lemma {:induction false} EqualIsReading(v: Json, x: Json) returns (u: Json)
    requires PyEq(v, x)
    ensures Reads(u, x) && JsonEq(v, u)
    decreases x, 1
  {
    match (v, x)
    case (Arr(vs), Arr(xs)) =>
      var us := ReadingsOf(vs, xs);
      u := Arr(us);
    case (Obj(m), Obj(n)) =>
      var r := FieldReadings(m, x, n.Keys);
      u := Obj(r);
    case (_, _) =>
      u := ScalarReading(v, x);
  }

  lemma {:induction false} ReadingsOf(vs: seq<Json>, xs: seq<Json>) returns (us: seq<Json>)
    requires |vs| == |xs| && forall i | 0 <= i < |xs| :: PyEq(vs[i], xs[i])
    ensures |us| == |xs| && forall i | 0 <= i < |xs| :: Reads(us[i], xs[i]) && JsonEq(vs[i], us[i])
    decreases xs, |xs|
  {
    us := [];
    if xs != [] {
      var u := EqualIsReading(vs[0], xs[0]);
      var rest := ReadingsOf(vs[1..], xs[1..]);
      us := [u] + rest;
    }
  }

  lemma {:induction false} FieldReadings(m: map<string, Json>, x: Json, keys: set<string>) returns (r: map<string, Json>)
    requires x.Obj? && m.Keys == x.fields.Keys && keys <= m.Keys && forall k | k in m :: PyEq(m[k], x.fields[k])
    ensures r.Keys == keys && forall k | k in keys :: Reads(r[k], x.fields[k]) && JsonEq(m[k], r[k])
    decreases x, 0, |keys|
  {
    r := map[];
    if keys != {} {
      var k :| k in keys;
      var u := EqualIsReading(m[k], x.fields[k]);
      var rest := FieldReadings(m, x, keys - {k});
      r := rest[k := u];
    }
  }
}
