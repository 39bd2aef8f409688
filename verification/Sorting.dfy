/** Stable sorting by a two-part key, as Python's `sorted(..., key=...)` orders pairs of texts. */
module Sorting {
  import opened Prelude

  /** A pair of numbers, or the bytes of a text; pairs come before texts. */
  datatype Key = Key(major: int, minor: int) | Text(bytes: seq<int>)

  /** Lexicographic order of byte texts. */
  predicate TextLeq(a: seq<int>, b: seq<int>) {
    a == [] || (b != [] && (a[0] < b[0] || (a[0] == b[0] && TextLeq(a[1..], b[1..]))))
  }

  predicate Leq(a: Key, b: Key) {
    match (a, b)
    case (Key(m, n), Key(m', n')) => m < m' || (m == m' && n <= n')
    case (Key(_, _), Text(_)) => true
    case (Text(_), Key(_, _)) => false
    case (Text(s), Text(s')) => TextLeq(s, s')
  }

  lemma {:induction false} TextOrder(a: seq<int>, b: seq<int>, c: seq<int>)
    ensures TextLeq(a, b) || TextLeq(b, a)
    ensures TextLeq(a, b) && TextLeq(b, c) ==> TextLeq(a, c)
    ensures TextLeq(a, b) && TextLeq(b, a) ==> a == b
  {
    if a != [] && b != [] {
      TextOrder(a[1..], b[1..], if c == [] then [] else c[1..]);
      assert a == [a[0]] + a[1..] && b == [b[0]] + b[1..];
    }
  }

  /** Keys are totally ordered. */
  lemma KeyOrder(a: Key, b: Key, c: Key)
    ensures Leq(a, b) || Leq(b, a)
    ensures Leq(a, b) && Leq(b, c) ==> Leq(a, c)
    ensures Leq(a, b) && Leq(b, a) ==> a == b
  {
    if a.Text? && b.Text? {
      TextOrder(a.bytes, b.bytes, if c.Text? then c.bytes else []);
    }
  }

  predicate Less(a: Key, b: Key) {
    Leq(a, b) && a != b
  }

  /** Insert after every element whose key is not greater. */
  function Insert<T>(xs: seq<T>, x: T, key: T -> Key): seq<T> {
    if xs == [] || Leq(key(xs[|xs| - 1]), key(x)) then xs + [x]
    else Insert(xs[..|xs| - 1], x, key) + [xs[|xs| - 1]]
  }

  function SortBy<T>(xs: seq<T>, key: T -> Key): seq<T> {
    if xs == [] then [] else Insert(SortBy(xs[..|xs| - 1], key), xs[|xs| - 1], key)
  }

  ghost predicate SortedBy<T>(xs: seq<T>, key: T -> Key) {
    forall i, j :: 0 <= i < j < |xs| ==> Leq(key(xs[i]), key(xs[j]))
  }

  /** No two different elements of `xs` have the same key. */
  ghost predicate KeysDistinguish<T>(xs: multiset<T>, key: T -> Key) {
    forall x, y :: x in xs && y in xs && key(x) == key(y) ==> x == y
  }

  lemma {:induction false} InsertSorts<T>(xs: seq<T>, x: T, key: T -> Key)
    requires SortedBy(xs, key)
    ensures SortedBy(Insert(xs, x, key), key)
    ensures multiset(Insert(xs, x, key)) == multiset(xs) + multiset{x}
    decreases |xs|
  {
    if xs != [] {
      hide Leq;
      var last := xs[|xs| - 1];
      assert xs == xs[..|xs| - 1] + [last];
      KeyOrder(key(last), key(x), key(x));
      forall i | 0 <= i < |xs|
        ensures Leq(key(last), key(x)) ==> Leq(key(xs[i]), key(x))
      {
        KeyOrder(key(xs[i]), key(last), key(x));
      }
      if !Leq(key(last), key(x)) {
        var shorter := Insert(xs[..|xs| - 1], x, key);
        InsertSorts(xs[..|xs| - 1], x, key);
        forall i | 0 <= i < |shorter|
          ensures Leq(key(shorter[i]), key(xs[|xs| - 1]))
        {
          assert shorter[i] in multiset(shorter);
          if shorter[i] != x {
            assert shorter[i] in multiset(xs[..|xs| - 1]);
            assert shorter[i] in xs[..|xs| - 1];
          }
        }
      }
    }
  }

  lemma {:induction false} SortByCorrect<T>(xs: seq<T>, key: T -> Key)
    ensures SortedBy(SortBy(xs, key), key)
    ensures multiset(SortBy(xs, key)) == multiset(xs)
    ensures |SortBy(xs, key)| == |xs|
    decreases |xs|
  {
    if xs != [] {
      SortByCorrect(xs[..|xs| - 1], key);
      InsertSorts(SortBy(xs[..|xs| - 1], key), xs[|xs| - 1], key);
      assert xs == xs[..|xs| - 1] + [xs[|xs| - 1]];
    }
    assert |multiset(SortBy(xs, key))| == |multiset(xs)|;
  }

  lemma LastAgree<T>(a: seq<T>, b: seq<T>, key: T -> Key)
    requires a != [] && b != []
    requires multiset(a) == multiset(b) && SortedBy(a, key) && SortedBy(b, key)
    requires KeysDistinguish(multiset(a), key)
    ensures a[|a| - 1] == b[|b| - 1]
  {
    var x, y := a[|a| - 1], b[|b| - 1];
    assert x in multiset(b) && y in multiset(a);
    hide Leq;
    var i :| 0 <= i < |b| && b[i] == x;
    var j :| 0 <= j < |a| && a[j] == y;
    KeyOrder(key(x), key(y), key(x));
    assert Leq(key(x), key(y)) && Leq(key(y), key(x));
  }

  lemma DropLast<T>(a: seq<T>, key: T -> Key)
    requires a != [] && SortedBy(a, key) && KeysDistinguish(multiset(a), key)
    ensures SortedBy(a[..|a| - 1], key) && KeysDistinguish(multiset(a[..|a| - 1]), key)
    ensures multiset(a[..|a| - 1]) == multiset(a) - multiset{a[|a| - 1]}
  {
    assert a == a[..|a| - 1] + [a[|a| - 1]];
  }

  /** A multiset has one sorted arrangement when keys tell its elements apart. */
  lemma {:induction false} SortedUnique<T>(a: seq<T>, b: seq<T>, key: T -> Key)
    requires multiset(a) == multiset(b) && SortedBy(a, key) && SortedBy(b, key)
    requires KeysDistinguish(multiset(a), key)
    ensures a == b
    decreases |a|
  {
    hide SortedBy, KeysDistinguish;
    assert |multiset(a)| == |multiset(b)|;
    if a != [] {
      LastAgree(a, b, key);
      DropLast(a, key);
      DropLast(b, key);
      SortedUnique(a[..|a| - 1], b[..|b| - 1], key);
      assert a == a[..|a| - 1] + [a[|a| - 1]];
    }
  }

  /** Sorting forgets the order of its input when keys tell elements apart. */
  lemma SortForgetsOrder<T>(xs: seq<T>, ys: seq<T>, key: T -> Key)
    requires multiset(xs) == multiset(ys) && KeysDistinguish(multiset(xs), key)
    ensures SortBy(xs, key) == SortBy(ys, key)
  {
    SortByCorrect(xs, key);
    SortByCorrect(ys, key);
    SortedUnique(SortBy(xs, key), SortBy(ys, key), key);
  }
}
