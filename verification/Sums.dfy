/** Sums and filters over sequences, used by every counting argument. */
module Sums {
  lemma MulMonotone(a: nat, b: nat, c: nat)
    requires a <= b
    ensures a * c <= b * c
  {}

  function Sum(s: seq<nat>): nat {
    if s == [] then 0 else Sum(s[..|s| - 1]) + s[|s| - 1]
  }

  lemma {:induction false} SumAppend(a: seq<nat>, b: seq<nat>)
    ensures Sum(a + b) == Sum(a) + Sum(b)
  {
    if b == [] {
      assert a + b == a;
    } else {
      var init, last := b[..|b| - 1], b[|b| - 1];
      assert (a + b)[..|a + b| - 1] == a + init;
      SumAppend(a, init);
    }
  }

  lemma SumTake(s: seq<nat>, k: nat)
    requires k < |s|
    ensures Sum(s[..k + 1]) == Sum(s[..k]) + s[k]
  {
    assert s[..k + 1][..k] == s[..k];
  }

  lemma {:induction false} SumZero(s: seq<nat>)
    ensures Sum(s) == 0 <==> forall i | 0 <= i < |s| :: s[i] == 0
  {
    if s != [] {
      SumZero(s[..|s| - 1]);
      assert forall i | 0 <= i < |s| - 1 :: s[..|s| - 1][i] == s[i];
    }
  }

  /** Changing one summand changes the sum by the same amount. */
  lemma {:induction false} SumUpdate(s: seq<nat>, i: nat, v: nat)
    requires i < |s|
    ensures Sum(s[i := v]) + s[i] == Sum(s) + v
  {
    var n := |s| - 1;
    if i == n {
      assert s[i := v][..n] == s[..n];
    } else {
      assert s[i := v][..n] == s[..n][i := v];
      SumUpdate(s[..n], i, v);
    }
  }

  lemma {:induction false} SumAtMost(s: seq<nat>, t: seq<nat>)
    requires |s| == |t| && forall i | 0 <= i < |s| :: s[i] <= t[i]
    ensures Sum(s) <= Sum(t)
  {
    if s != [] {
      SumAtMost(s[..|s| - 1], t[..|t| - 1]);
    }
  }

  lemma {:induction false} SumPointwise(s: seq<nat>, t: seq<nat>, u: seq<nat>)
    requires |s| == |t| == |u| && forall i | 0 <= i < |s| :: u[i] == s[i] + t[i]
    ensures Sum(u) == Sum(s) + Sum(t)
  {
    if s != [] {
      SumPointwise(s[..|s| - 1], t[..|t| - 1], u[..|u| - 1]);
    }
  }

  lemma {:induction false} SumConstant(s: seq<nat>, v: nat)
    requires forall i | 0 <= i < |s| :: s[i] == v
    ensures Sum(s) == |s| * v
  {
    if s != [] {
      SumConstant(s[..|s| - 1], v);
      assert |s| * v == (|s| - 1) * v + v;
    }
  }

  function Each<T>(s: seq<T>, f: T -> nat): (r: seq<nat>)
    ensures |r| == |s| && forall i | 0 <= i < |s| :: r[i] == f(s[i])
  {
    seq(|s|, i requires 0 <= i < |s| => f(s[i]))
  }

  function SumOf<T>(s: seq<T>, f: T -> nat): nat {
    Sum(Each(s, f))
  }

  lemma SumOfAppend<T>(a: seq<T>, b: seq<T>, f: T -> nat)
    ensures SumOf(a + b, f) == SumOf(a, f) + SumOf(b, f)
  {
    assert Each(a + b, f) == Each(a, f) + Each(b, f);
    SumAppend(Each(a, f), Each(b, f));
  }

  lemma SumOfOne<T>(x: T, f: T -> nat)
    ensures SumOf([x], f) == f(x)
  {
    var r := Each([x], f);
    assert r[..0] == [] && Sum(r) == Sum(r[..0]) + r[0];
  }

  lemma SumOfNone<T>(f: T -> nat)
    ensures SumOf([], f) == 0
  {}

  function SumTo(n: nat, f: nat -> nat): nat {
    if n == 0 then 0 else SumTo(n - 1, f) + f(n - 1)
  }

  lemma {:induction false} SumToSame(n: nat, f: nat -> nat, g: nat -> nat)
    requires forall i | 0 <= i < n :: f(i) == g(i)
    ensures SumTo(n, f) == SumTo(n, g)
  {
    if n > 0 {
      SumToSame(n - 1, f, g);
    }
  }

  lemma {:induction false} SumToAdds(n: nat, f: nat -> nat, g: nat -> nat, h: nat -> nat)
    requires forall i | 0 <= i < n :: h(i) == f(i) + g(i)
    ensures SumTo(n, h) == SumTo(n, f) + SumTo(n, g)
  {
    if n > 0 {
      SumToAdds(n - 1, f, g, h);
    }
  }

  lemma {:induction false} SumToScales(n: nat, f: nat -> nat, c: nat, h: nat -> nat)
    requires forall i | 0 <= i < n :: h(i) == f(i) * c
    ensures SumTo(n, h) == SumTo(n, f) * c
  {
    if n > 0 {
      SumToScales(n - 1, f, c, h);
    }
  }

  lemma {:induction false} SumToConstant(n: nat, f: nat -> nat, c: nat)
    requires forall i | 0 <= i < n :: f(i) == c
    ensures SumTo(n, f) == n * c
  {
    if n > 0 {
      SumToConstant(n - 1, f, c);
      assert n * c == (n - 1) * c + c;
    }
  }

  lemma {:induction false} SumToIsSum(n: nat, f: nat -> nat, s: seq<nat>)
    requires |s| == n && forall i | 0 <= i < n :: s[i] == f(i)
    ensures Sum(s) == SumTo(n, f)
  {
    if n > 0 {
      SumToIsSum(n - 1, f, s[..n - 1]);
    }
  }

  /** Number of `true` entries. */
  function Count(s: seq<bool>): nat {
    if s == [] then 0 else Count(s[..|s| - 1]) + (if s[|s| - 1] then 1 else 0)
  }

  lemma CountTake(s: seq<bool>, k: nat)
    requires k < |s|
    ensures Count(s[..k + 1]) == Count(s[..k]) + (if s[k] then 1 else 0)
  {
    assert s[..k + 1][..k] == s[..k];
  }

  lemma {:induction false} CountBounds(s: seq<bool>)
    ensures Count(s) <= |s|
    ensures Count(s) == |s| <==> forall i | 0 <= i < |s| :: s[i]
    ensures Count(s) == 0 <==> forall i | 0 <= i < |s| :: !s[i]
  {
    if s != [] {
      CountBounds(s[..|s| - 1]);
      assert forall i | 0 <= i < |s| - 1 :: s[..|s| - 1][i] == s[i];
    }
  }

  lemma {:induction false} CountSet(s: seq<bool>, i: nat)
    requires i < |s| && !s[i]
    ensures Count(s[i := true]) == Count(s) + 1
  {
    var n := |s| - 1;
    if i == n {
      assert s[i := true][..n] == s[..n];
    } else {
      assert s[i := true][..n] == s[..n][i := true];
      CountSet(s[..n], i);
    }
  }

}
