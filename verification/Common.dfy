/** Small definitions shared by the components of the conferencing model. */
module Common {

  datatype Option<+T> = None | Some(value: T)

  function Min(a: int, b: int): int { if a <= b then a else b }

  function Max(a: int, b: int): int { if a >= b then a else b }

  function Abs(a: int): nat { if a >= 0 then a else -a }

  /** Integer division as in C++, which truncates towards zero. */
  function TruncDiv(a: int, b: int): int
    requires b > 0
  {
    if a >= 0 then a / b else -(-a / b)
  }

  lemma ConcatAssociates<T>(xs: seq<T>, ys: seq<T>, zs: seq<T>)
    ensures xs + (ys + zs) == xs + ys + zs
  {
  }

  ghost predicate IsLeast(s: set<int>, m: int) { m in s && forall x :: x in s ==> m <= x }

  lemma {:induction false} LeastExists(s: set<int>, known: int)
    requires known in s
    ensures exists m :: IsLeast(s, m)
    decreases |s|
  {
    if smaller :| smaller in s && smaller < known {
      var rest := s - {known};
      LeastExists(rest, smaller);
      var m :| IsLeast(rest, m);
      assert forall x :: x in s ==> x == known || x in rest;
      assert IsLeast(s, m);
    } else {
      assert IsLeast(s, known);
    }
  }

  ghost function Least(s: set<int>): (m: int)
    requires exists x :: x in s
    ensures m in s && forall x :: x in s ==> m <= x
  {
    var known :| known in s;
    LeastExists(s, known);
    var m :| IsLeast(s, m);
    m
  }

  /** A set of integers inside a half-open interval has at most as many elements as the interval. */
  lemma {:induction false} BoundedCardinality(s: set<int>, lo: int, hi: int)
    requires forall x :: x in s ==> lo <= x < hi
    requires lo <= hi
    ensures |s| <= hi - lo
    decreases hi - lo
  {
    if lo == hi {
      assert s == {};
    } else {
      var rest := s - {hi - 1};
      BoundedCardinality(rest, lo, hi - 1);
      assert s <= rest + {hi - 1};
      if hi - 1 in s {
        assert s == rest + {hi - 1};
      } else {
        assert s == rest;
      }
    }
  }

  lemma ProductMonotone(a: nat, b: nat, size: nat)
    requires a <= b
    ensures 0 <= a * size == size * a <= b * size == size * b
  {
  }

  lemma MultipleBelow(p: int, q: int, d: int)
    requires d > 0
    ensures p < q ==> p * d + d <= q * d
  {
    var k := q - p - 1;
    assert k >= 0 ==> k * d >= 0;
    SplitProduct(p, k, d);
  }

  lemma SplitProduct(p: int, k: int, d: int)
    ensures (p + 1 + k) * d == p * d + d + k * d
  {
  }

  lemma QuotientUnique(n: int, d: int, q: int, r: int)
    requires d > 0 && n == q * d + r && 0 <= r < d
    ensures n / d == q && n % d == r
  {
    var p := n / d;
    assert n == p * d + n % d;
    MultipleBelow(p, q, d);
    MultipleBelow(q, p, d);
  }

  lemma QuotientMonotone(a: int, b: int, d: int)
    requires d > 0 && 0 <= a <= b
    ensures 0 <= a / d <= b / d
  {
    var p, q := a / d, b / d;
    assert a == p * d + a % d && b == q * d + b % d;
    MultipleBelow(q, p, d);
    MultipleBelow(p, 0, d);
  }

  lemma QuotientShift(a: int, b: int, d: int)
    requires d > 0
    ensures (a * d + b) / d == a + b / d
  {
    var q, r := b / d, b % d;
    assert a * d + b == (a + q) * d + r by {
      assert (a + q) * d == a * d + q * d;
    }
    QuotientUnique(a * d + b, d, a + q, r);
  }
}
