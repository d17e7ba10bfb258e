/** Small numeric helpers shared by the cost-effectiveness model: an optional
    value, the sum of a sequence of reals (Python's built-in `sum`) and
    integer powers (Python's `**` with a whole exponent). */
module Numeric {

  datatype Option<T> = None | Some(value: T)

  /** The sum of `s`, accumulated left to right as Python's `sum` does. */
  function Sum(s: seq<real>): real
  {
    if s == [] then 0.0 else Sum(s[..|s| - 1]) + s[|s| - 1]
  }

  /** `b` raised to the whole power `n`. */
  function Pow(b: real, n: nat): real
  {
    if n == 0 then 1.0 else Pow(b, n - 1) * b
  }

  /** Pointwise sum and scaling of vectors. */
  function Add(a: seq<real>, b: seq<real>): (r: seq<real>)
    requires |a| == |b|
    ensures |r| == |a|
  {
    seq(|a|, i requires 0 <= i < |a| => a[i] + b[i])
  }

  function Scale(k: real, a: seq<real>): (r: seq<real>)
    ensures |r| == |a|
  {
    seq(|a|, i requires 0 <= i < |a| => k * a[i])
  }

  lemma {:induction false} SumOfZeros(s: seq<real>)
    requires forall i :: 0 <= i < |s| ==> s[i] == 0.0
    ensures Sum(s) == 0.0
  {
    if s != [] {
      SumOfZeros(s[..|s| - 1]);
    }
  }

  lemma {:induction false} SumNonNegative(s: seq<real>)
    requires forall i :: 0 <= i < |s| ==> 0.0 <= s[i]
    ensures 0.0 <= Sum(s)
  {
    if s != [] {
      SumNonNegative(s[..|s| - 1]);
    }
  }

  lemma {:induction false} SumConcat(a: seq<real>, b: seq<real>)
    ensures Sum(a + b) == Sum(a) + Sum(b)
  {
    if b == [] {
      assert a + b == a;
    } else {
      assert (a + b)[..|a + b| - 1] == a + b[..|b| - 1];
      SumConcat(a, b[..|b| - 1]);
    }
  }

  /** The sum is linear. */
  lemma {:induction false} SumAdd(a: seq<real>, b: seq<real>)
    requires |a| == |b|
    ensures Sum(Add(a, b)) == Sum(a) + Sum(b)
  {
    if a != [] {
      var n := |a| - 1;
      assert Add(a, b)[..n] == Add(a[..n], b[..n]);
      SumAdd(a[..n], b[..n]);
    }
  }

  lemma {:induction false} SumScale(k: real, a: seq<real>)
    ensures Sum(Scale(k, a)) == k * Sum(a)
  {
    if a != [] {
      var n := |a| - 1;
      assert forall i :: 0 <= i < n ==> Scale(k, a)[i] == Scale(k, a[..n])[i];
      assert Scale(k, a)[..n] == Scale(k, a[..n]);
      SumScale(k, a[..n]);
    }
  }

  lemma MulNonNegative(a: real, b: real)
    requires 0.0 <= a && 0.0 <= b
    ensures 0.0 <= a * b
  {
  }

  /** A positive base has every power positive. */
  lemma {:induction false} PowPositive(b: real, n: nat)
    requires 0.0 < b
    ensures 0.0 < Pow(b, n)
  {
    if n > 0 {
      PowPositive(b, n - 1);
    }
  }

  /** A base above one has every positive power above one. */
  lemma {:induction false} PowAboveOne(b: real, n: nat)
    requires 1.0 < b && 0 < n
    ensures 1.0 < Pow(b, n)
  {
    if n > 1 {
      PowAboveOne(b, n - 1);
    }
  }
}
