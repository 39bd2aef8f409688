/**
 The visiting order of nested counting loops: every coordinate below the bounds, last
 coordinate fastest. Loops that append one element per innermost step are specified by it: what
 they have emitted is the image of the coordinates before their counters.
 */
module RowMajor {
  import opened Prelude

  type Coord = seq<nat>

  predicate Within(v: Coord, dims: seq<nat>) {
    |v| == |dims| && forall i :: 0 <= i < |v| ==> v[i] < dims[i]
  }

  function Prepend(x: nat, rest: seq<Coord>): (r: seq<Coord>)
    ensures |r| == |rest| && forall i :: 0 <= i < |r| ==> r[i] == [x] + rest[i]
  {
    seq(|rest|, i requires 0 <= i < |rest| => [x] + rest[i])
  }

  /** The coordinates whose first entry is below `x`. */
  function Rows(dims: seq<nat>, x: nat): seq<Coord>
    requires dims != []
    decreases |dims|, 0, x
  {
    if x == 0 then [] else Rows(dims, x - 1) + Prepend(x - 1, Product(dims[1..]))
  }

  function Product(dims: seq<nat>): seq<Coord>
    decreases |dims|, 1, 0
  {
    if dims == [] then [[]] else Rows(dims, dims[0])
  }

  /** The coordinates visited before a loop nest reaches the counters `v` of its outer loops. */
  function Before(dims: seq<nat>, v: Coord): seq<Coord>
    requires |v| <= |dims|
    decreases |v|
  {
    if v == [] then [] else Rows(dims, v[0]) + Prepend(v[0], Before(dims[1..], v[1..]))
  }

  // ---------------------------------------------------------------- which coordinates, how often

  lemma {:induction false} RowsMembers(dims: seq<nat>, x: nat, v: Coord)
    requires dims != []
    ensures v in Rows(dims, x) <==> |v| == |dims| && v[0] < x && Within(v[1..], dims[1..])
    decreases |dims|, 0, x
  {
    if x > 0 {
      RowsMembers(dims, x - 1, v);
      var rest, last := Product(dims[1..]), Prepend(x - 1, Product(dims[1..]));
      if v in last {
        var i: nat :| i < |last| && last[i] == v;
        assert v[1..] == rest[i];
        assert v[1..] in rest;
        ProductMembers(dims[1..], v[1..]);
      }
      if |v| == |dims| && v[0] == x - 1 && Within(v[1..], dims[1..]) {
        ProductMembers(dims[1..], v[1..]);
        var i :| 0 <= i < |rest| && rest[i] == v[1..];
        assert last[i] == v;
      }
    }
  }

  /** The product holds exactly the coordinates below the bounds. */
  lemma {:induction false} ProductMembers(dims: seq<nat>, v: Coord)
    ensures v in Product(dims) <==> Within(v, dims)
    decreases |dims|, 1, 0
  {
    if dims != [] {
      RowsMembers(dims, dims[0], v);
      if |v| == |dims| && v[0] < dims[0] && Within(v[1..], dims[1..]) {
        assert forall i :: 0 < i < |v| ==> v[i] == v[1..][i - 1] && dims[i] == dims[1..][i - 1];
      }
    }
  }

  lemma {:induction false} RowsDistinct(dims: seq<nat>, x: nat)
    requires dims != []
    ensures NoDuplicates<Coord>(Rows(dims, x))
    decreases |dims|, 0, x
  {
    if x > 0 {
      RowsDistinct(dims, x - 1);
      ProductDistinct(dims[1..]);
      var before, rest := Rows(dims, x - 1), Product(dims[1..]);
      var last := Prepend(x - 1, rest);
      var all: seq<Coord> := before + last;
      forall i, j | 0 <= i < j < |all|
        ensures all[i] != all[j]
      {
        if i < |before| <= j {
          assert before[i] in before;
          RowsMembers(dims, x - 1, before[i]);
        } else if |before| <= i {
          assert last[i - |before|][1..] == rest[i - |before|];
          assert last[j - |before|][1..] == rest[j - |before|];
        }
      }
    }
  }

  /** No coordinate is visited twice. */
  lemma {:induction false} ProductDistinct(dims: seq<nat>)
    ensures NoDuplicates<Coord>(Product(dims))
    decreases |dims|, 1, 0
  {
    if dims != [] {
      RowsDistinct(dims, dims[0]);
    }
  }

  // ---------------------------------------------------------------- the steps of a loop nest

  /** Entering an inner loop. */
  lemma {:induction false} Deepen(dims: seq<nat>, v: Coord)
    requires |v| < |dims|
    ensures Before(dims, v + [0]) == Before(dims, v)
    decreases |v|
  {
    if v == [] {
      assert Before(dims, [0]) == Rows(dims, 0) + Prepend(0, []);
    } else {
      Deepen(dims[1..], v[1..]);
      assert (v + [0])[1..] == v[1..] + [0];
    }
  }

  /** Leaving an inner loop. */
  lemma {:induction false} Carry(dims: seq<nat>, v: Coord, x: nat)
    requires |v| + 1 < |dims|
    ensures Before(dims, v + [x] + [dims[|v| + 1]]) == Before(dims, v + [x + 1])
    decreases |v|
  {
    var n := dims[|v| + 1];
    if v == [] {
      assert (v + [x] + [n])[1..] == [n] && (v + [x + 1])[1..] == [];
      assert Before(dims[1..], [n]) == Rows(dims[1..], n) + Prepend(n, []) by {
        assert [n][1..] == [];
      }
      assert Before(dims[1..], [n]) == Product(dims[1..]);
      assert Before(dims, v + [x + 1]) == Rows(dims, x + 1) + Prepend(x + 1, []);
    } else {
      Carry(dims[1..], v[1..], x);
      assert (v + [x] + [n])[1..] == v[1..] + [x] + [n];
      assert (v + [x + 1])[1..] == v[1..] + [x + 1];
    }
  }

  lemma SingleBefore(dims: seq<nat>, x: nat)
    requires |dims| == 1
    ensures Before(dims, [x]) == Rows(dims, x)
  {
    hide Rows;
    assert [x][1..] == [];
    assert Before(dims[1..], []) == [];
  }

  lemma SingleStep(dims: seq<nat>, x: nat)
    requires |dims| == 1
    ensures Before(dims, [x + 1]) == Before(dims, [x]) + [[x]]
  {
    hide *;
    SingleBefore(dims, x);
    SingleBefore(dims, x + 1);
    SingleRow(dims, x);
  }

  /** One innermost step. */
  lemma {:induction false} Step(dims: seq<nat>, v: Coord, x: nat)
    requires |v| + 1 == |dims|
    ensures Before(dims, v + [x + 1]) == Before(dims, v + [x]) + [v + [x]]
    decreases |v|
  {
    if v == [] {
      SingleStep(dims, x);
      assert v + [x] == [x] && v + [x + 1] == [x + 1];
    } else {
      Step(dims[1..], v[1..], x);
      assert (v + [x + 1])[1..] == v[1..] + [x + 1] && (v + [x])[1..] == v[1..] + [x];
      var inner := Before(dims[1..], v[1..] + [x]);
      assert Prepend(v[0], inner + [v[1..] + [x]]) == Prepend(v[0], inner) + [[v[0]] + (v[1..] + [x])];
      assert [v[0]] + (v[1..] + [x]) == v + [x];
    }
  }

  /** The outermost loop's end. */
  lemma Complete(dims: seq<nat>)
    requires dims != []
    ensures Before(dims, [dims[0]]) == Product(dims)
  {
    assert [dims[0]][1..] == [];
  }

  lemma {:induction false} BeforeMembers(dims: seq<nat>, v: Coord, w: Coord)
    requires |v| <= |dims| && w in Before(dims, v)
    requires forall i :: 0 <= i < |v| ==> v[i] <= dims[i]
    requires forall i :: 0 <= i < |v| - 1 ==> v[i] < dims[i]
    ensures Within(w, dims)
    decreases |v|
  {
    var inner := Before(dims[1..], v[1..]);
    if w in Rows(dims, v[0]) {
      RowsMembers(dims, v[0], w);
      assert forall i :: 0 < i < |w| ==> w[i] == w[1..][i - 1] && dims[i] == dims[1..][i - 1];
    } else {
      var i :| 0 <= i < |inner| && Prepend(v[0], inner)[i] == w;
      assert inner[i] in inner;
      assert v[1..] != [];
      BeforeMembers(dims[1..], v[1..], inner[i]);
    }
  }

  // ---------------------------------------------------------------- how many

  function Volume(dims: seq<nat>): nat {
    if dims == [] then 1 else dims[0] * Volume(dims[1..])
  }

  lemma {:induction false} RowsCount(dims: seq<nat>, x: nat)
    requires dims != []
    ensures |Rows(dims, x)| == x * Volume(dims[1..])
    decreases |dims|, 0, x
  {
    if x > 0 {
      RowsCount(dims, x - 1);
      ProductCount(dims[1..]);
      assert x * Volume(dims[1..]) == (x - 1) * Volume(dims[1..]) + Volume(dims[1..]);
    }
  }

  lemma {:induction false} ProductCount(dims: seq<nat>)
    ensures |Product(dims)| == Volume(dims)
    decreases |dims|, 1, 0
  {
    if dims != [] {
      RowsCount(dims, dims[0]);
    }
  }

  /** How many coordinates end in `y`. */
  function EndingIn(coords: seq<Coord>, y: nat): nat {
    if coords == [] then 0
    else EndingIn(coords[..|coords| - 1], y) + if EndsIn(coords[|coords| - 1], y) then 1 else 0
  }

  predicate EndsIn(v: Coord, y: nat) {
    v != [] && v[|v| - 1] == y
  }

  lemma {:induction false} EndingInJoin(a: seq<Coord>, b: seq<Coord>, y: nat)
    ensures EndingIn(a + b, y) == EndingIn(a, y) + EndingIn(b, y)
    decreases |b|
  {
    if b == [] {
      assert a + b == a;
    } else {
      var shorter := b[..|b| - 1];
      assert (a + b)[..|a + b| - 1] == a + shorter;
      EndingInJoin(a, shorter, y);
    }
  }

  lemma {:induction false} EndingInPrepend(x: nat, rest: seq<Coord>, y: nat)
    requires forall v :: v in rest ==> v != []
    ensures EndingIn(Prepend(x, rest), y) == EndingIn(rest, y)
    decreases |rest|
  {
    var all := Prepend(x, rest);
    if rest != [] {
      var shorter, last := rest[..|rest| - 1], rest[|rest| - 1];
      assert last in rest && forall v :: v in shorter ==> v in rest;
      EndingInPrepend(x, shorter, y);
      assert all[..|all| - 1] == Prepend(x, shorter);
      assert all[|all| - 1] == [x] + last;
      assert ([x] + last)[|last|] == last[|last| - 1];
    }
  }

  lemma SingleRow(dims: seq<nat>, x: nat)
    requires |dims| == 1
    ensures Rows(dims, x + 1) == Rows(dims, x) + [[x]]
  {
    var origin: Coord := [];
    assert dims[1..] == [] && Product(dims[1..]) == [origin];
    assert [x] + origin == [x];
    assert Prepend(x, [origin]) == [[x]];
  }

  lemma EndingInOne(v: Coord, y: nat)
    ensures EndingIn([v], y) == if EndsIn(v, y) then 1 else 0
    ensures |v| == 1 ==> (EndsIn(v, y) <==> v[0] == y)
  {
    assert [v][..0] == [];
  }

  lemma {:induction false} SingleEndingIn(dims: seq<nat>, x: nat, y: nat)
    requires |dims| == 1
    ensures EndingIn(Rows(dims, x), y) == if y < x then 1 else 0
    decreases x
  {
    hide *;
    if x == 0 {
      NoRows(dims, y);
    } else {
      SingleEndingIn(dims, x - 1, y);
      SingleRow(dims, x - 1);
      var row: seq<Coord> := [[x - 1]];
      EndingInJoin(Rows(dims, x - 1), row, y);
      EndingInOne([x - 1], y);
    }
  }

  lemma RowsGrow(dims: seq<nat>, x: nat, y: nat)
    requires |dims| > 1
    ensures EndingIn(Rows(dims, x + 1), y) == EndingIn(Rows(dims, x), y) + EndingIn(Product(dims[1..]), y)
  {
    hide Product, EndingIn;
    var before, rest := Rows(dims, x), Product(dims[1..]);
    forall v | v in rest
      ensures v != []
    {
      ProductMembers(dims[1..], v);
    }
    EndingInPrepend(x, rest, y);
    EndingInJoin(before, Prepend(x, rest), y);
  }

  lemma NoRows(dims: seq<nat>, y: nat)
    requires dims != []
    ensures EndingIn(Rows(dims, 0), y) == 0
  {
  }

  lemma {:induction false} RowsEndingIn(dims: seq<nat>, x: nat, y: nat, width: nat)
    requires |dims| > 1
    requires EndingIn(Product(dims[1..]), y) == width
    ensures EndingIn(Rows(dims, x), y) == x * width
    decreases x
  {
    hide *;
    if x == 0 {
      assert EndingIn(Rows(dims, 0), y) == 0 by { NoRows(dims, y); }
    } else {
      RowsEndingIn(dims, x - 1, y, width);
      RowsGrow(dims, x - 1, y);
      assert x * width == (x - 1) * width + width;
    }
  }

  /** Each value of the last coordinate is taken equally often. */
  lemma {:induction false} ProductEndingIn(dims: seq<nat>, y: nat)
    requires dims != [] && y < dims[|dims| - 1]
    ensures EndingIn(Product(dims), y) == Volume(dims[..|dims| - 1])
    decreases |dims|
  {
    hide EndingIn, Rows;
    assert Product(dims) == Rows(dims, dims[0]);
    if |dims| == 1 {
      SingleEndingIn(dims, dims[0], y);
      assert dims[..0] == [];
    } else {
      ProductEndingIn(dims[1..], y);
      var outer, inner := dims[..|dims| - 1], dims[1..][..|dims| - 2];
      RowsEndingIn(dims, dims[0], y, Volume(inner));
      assert outer[0] == dims[0] && outer[1..] == inner;
    }
  }
}
