/** Sums of a real-valued function over a sequence or a finite set. */
module Sums {

  /** Left-to-right sum, the order a loop accumulates in. */
  function Sum<T>(s: seq<T>, f: T -> real): real {
    if s == [] then 0.0 else Sum(s[..|s| - 1], f) + f(s[|s| - 1])
  }

  lemma SumAppend<T>(s: seq<T>, x: T, f: T -> real)
    ensures Sum(s + [x], f) == Sum(s, f) + f(x)
  {
    assert (s + [x])[..|s|] == s;
  }

  lemma {:induction false} SumConcat<T>(a: seq<T>, b: seq<T>, f: T -> real)
    ensures Sum(a + b, f) == Sum(a, f) + Sum(b, f)
  {
    if b == [] {
      assert a + b == a;
    } else {
      var last := |b| - 1;
      assert a + b == (a + b[..last]) + [b[last]];
      SumAppend(a + b[..last], b[last], f);
      SumConcat(a, b[..last], f);
    }
  }

  lemma {:induction false} SumPointwise<T>(s: seq<T>, f: T -> real, g: T -> real)
    requires forall i :: 0 <= i < |s| ==> f(s[i]) == g(s[i])
    ensures Sum(s, f) == Sum(s, g)
  {
    if s == [] {
    } else {
      SumPointwise(s[..|s| - 1], f, g);
    }
  }

  lemma {:induction false} SumOfZeros<T>(s: seq<T>, f: T -> real)
    requires forall i :: 0 <= i < |s| ==> f(s[i]) == 0.0
    ensures Sum(s, f) == 0.0
  {
    if s == [] {
    } else {
      SumOfZeros(s[..|s| - 1], f);
    }
  }

  lemma {:induction false} SumAdds<T>(s: seq<T>, f: T -> real, g: T -> real, h: T -> real)
    requires forall i :: 0 <= i < |s| ==> h(s[i]) == f(s[i]) + g(s[i])
    ensures Sum(s, h) == Sum(s, f) + Sum(s, g)
  {
    if s == [] {
    } else {
      SumAdds(s[..|s| - 1], f, g, h);
    }
  }

  /** A sum does not depend on the order of its terms. */
  lemma {:induction false} SumPermuted<T>(a: seq<T>, b: seq<T>, f: T -> real)
    requires multiset(a) == multiset(b)
    ensures Sum(a, f) == Sum(b, f)
  {
    if a == [] {
      assert |b| == |multiset(b)| == 0;
    } else {
      var x, rest := a[|a| - 1], a[..|a| - 1];
      assert a == rest + [x];
      assert x in multiset(b);
      var i :| 0 <= i < |b| && b[i] == x;
      assert b == b[..i] + [x] + b[i + 1..];
      assert multiset(a) == multiset(rest) + multiset{x};
      assert multiset(b) == multiset(b[..i]) + multiset{x} + multiset(b[i + 1..]);
      calc {
        multiset(rest);
        multiset(a) - multiset{x};
        multiset(b[..i]) + multiset(b[i + 1..]);
        multiset(b[..i] + b[i + 1..]);
      }
      SumPermuted(rest, b[..i] + b[i + 1..], f);
      SumConcat(b[..i], b[i + 1..], f);
      SumConcat(b[..i] + [x], b[i + 1..], f);
      SumAppend(b[..i], x, f);
    }
  }

  /** Sum over a finite set. */
  ghost function SetSum<T(!new)>(s: set<T>, f: T -> real): real {
    if s == {} then 0.0
    else
      var x :| x in s;
      SetSum(s - {x}, f) + f(x)
  }

  lemma {:induction false} SetSumRemove<T(!new)>(s: set<T>, x: T, f: T -> real)
    requires x in s
    ensures SetSum(s, f) == SetSum(s - {x}, f) + f(x)
    decreases |s|
  {
    var y :| y in s && SetSum(s, f) == SetSum(s - {y}, f) + f(y);
    if y != x {
      SetSumRemove(s - {y}, x, f);
      SetSumRemove(s - {x}, y, f);
      assert s - {y} - {x} == s - {x} - {y};
    }
  }

  lemma SetSumAdd<T(!new)>(s: set<T>, x: T, f: T -> real)
    requires x !in s
    ensures SetSum(s + {x}, f) == SetSum(s, f) + f(x)
  {
    SetSumRemove(s + {x}, x, f);
    assert s + {x} - {x} == s;
  }

  lemma {:induction false} SetSumUnion<T(!new)>(a: set<T>, b: set<T>, f: T -> real)
    requires a !! b
    ensures SetSum(a + b, f) == SetSum(a, f) + SetSum(b, f)
    decreases b
  {
    if b == {} {
      assert a + b == a;
    } else {
      var x :| x in b;
      SetSumRemove(b, x, f);
      SetSumUnion(a, b - {x}, f);
      assert a + b == (a + (b - {x})) + {x};
      SetSumAdd(a + (b - {x}), x, f);
    }
  }
}
