/** Options and integer helpers shared by the models. */
module Common {

  /** A value that may be missing: Python's `None`, an absent row, a missing key. */
  datatype Option<+T> = None | Some(value: T)

  function Min(a: int, b: int): int {
    if a <= b then a else b
  }

  function Max(a: int, b: int): int {
    if a >= b then a else b
  }

  /** `max(low, min(value, high))`, the clamp used all over the repository. */
  function Clamp(low: int, value: int, high: int): int {
    Max(low, Min(value, high))
  }

  lemma HasElement(s: set<int>)
    ensures s == {} || exists x :: x in s
  {
    if forall x :: x !in s {
      assert s == {};
    }
  }

  predicate IsLeast(s: set<int>, m: int) {
    m in s && forall x | x in s :: m <= x
  }

  lemma {:induction false} LeastExists(s: set<int>)
    requires s != {}
    ensures exists m :: IsLeast(s, m)
    decreases s
  {
    HasElement(s);
    var x :| x in s;
    assert forall y | y in s :: y == x || y in s - {x};
    if s - {x} != {} {
      LeastExists(s - {x});
      var m :| IsLeast(s - {x}, m);
      assert IsLeast(s, Min(x, m));
    } else {
      assert IsLeast(s, x);
    }
  }

  lemma SameKeys(a: set<int>, b: set<int>)
    requires forall x: int :: x in a <==> x in b
    ensures a == b
  {
    assert forall x | x in a :: x in b;
    assert forall x | x in b :: x in a;
    assert a <= b && b <= a;
  }

  lemma {:induction false} Fits(a: set<int>, b: set<int>)
    requires a <= b
    ensures |a| <= |b| && (|a| == |b| ==> a == b)
    decreases |a|
  {
    if a != {} {
      HasElement(a);
      var x :| x in a;
      Fits(a - {x}, b - {x});
      if |a| == |b| {
        assert a == (a - {x}) + {x} == (b - {x}) + {x} == b;
      }
    } else if b != {} {
      HasElement(b);
      var y :| y in b;
      assert |b - {y}| == |b| - 1;
    }
  }
}
