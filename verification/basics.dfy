/** Small vocabulary shared by every module of the model: optional values,
    the outcome of an operation that may abort with a Go runtime panic,
    Go's truncating integer division, and sums and maxima over reals. */
module Basics {

  /** Go's nil-or-value, and Go's `(value, ok)` pairs. */
  datatype Option<+T> = None | Some(value: T)

  /** The result of an operation that either completes or aborts the
      program with a Go panic (an explicit `panic`, an index or slice out of
      range, an integer division by zero). */
  datatype Outcome<+T> = Ok(value: T) | Panic(reason: string)

  /** The magnitude of an integer. */
  function Abs(x: int): (m: nat)
    ensures m == x || m == -x
  {
    if x < 0 then -x else x
  }

  /** Go's `/` on integers: the quotient truncated toward zero. Its
      magnitude is the quotient of the magnitudes, and it is positive
      exactly when the operands have the same sign. */
  function GoQuot(a: int, b: int): (q: int)
    requires b != 0
    ensures Abs(q) == Abs(a) / Abs(b)
    ensures q != 0 ==> (q > 0 <==> (a > 0) == (b > 0))
  {
    var m := Abs(a);
    var d := Abs(b);
    DivOfNatural(m, d);
    var magnitude := m / d;
    if (a >= 0) == (b > 0) then magnitude else -magnitude
  }

  /** Dividing a natural number by a positive one gives a natural number,
      zero for zero. */
  lemma DivOfNatural(m: int, d: int)
    requires m >= 0 && d > 0
    ensures m / d >= 0 && (m == 0 ==> m / d == 0)
  {
  }

  /** Go's `%` on integers: what the truncated quotient leaves over. Its
      magnitude is the remainder of the magnitudes, so it is smaller than
      the divisor's, and it takes the sign of the dividend. */
  function GoRem(a: int, b: int): (r: int)
    requires b != 0
    ensures a == b * GoQuot(a, b) + r
    ensures Abs(r) == Abs(a) % Abs(b) && Abs(r) < Abs(b)
    ensures r != 0 ==> (r > 0 <==> a > 0)
  {
    GoRemMagnitude(a, b);
    a - b * GoQuot(a, b)
  }

  /** The four sign cases of `GoRem`: each is the Euclidean remainder of
      the magnitudes, negated for a negative dividend. */
  lemma GoRemMagnitude(a: int, b: int)
    requires b != 0
    ensures a >= 0 ==> a - b * GoQuot(a, b) == Abs(a) % Abs(b)
    ensures a < 0 ==> a - b * GoQuot(a, b) == -(Abs(a) % Abs(b))
  {
    var m: int := Abs(a);
    var d: int := Abs(b);
    var k: int := m / d;
    assert m == d * k + m % d;
    if a >= 0 && b > 0 {
      assert GoQuot(a, b) == k;
    } else if a >= 0 {
      assert GoQuot(a, b) == -k && b == -d;
      assert b * GoQuot(a, b) == d * k;
    } else if b > 0 {
      assert GoQuot(a, b) == -k && a == -m;
      assert b * GoQuot(a, b) == -(d * k);
    } else {
      assert GoQuot(a, b) == k && a == -m && b == -d;
      assert b * GoQuot(a, b) == -(d * k);
    }
  }

  /** Go's quotient against Dafny's Euclidean one: they agree for a
      non-negative dividend or an exact division; otherwise a negative
      dividend is rounded toward zero, one step above the Euclidean quotient
      for a positive divisor and one below it for a negative one. */
  lemma GoQuotVersusEuclid(a: int, b: int)
    requires b != 0
    ensures a >= 0 || GoRem(a, b) == 0 ==> GoQuot(a, b) == a / b
    ensures a < 0 && GoRem(a, b) != 0 && b > 0 ==> GoQuot(a, b) == a / b + 1
    ensures a < 0 && GoRem(a, b) != 0 && b < 0 ==> GoQuot(a, b) == a / b - 1
  {
    var q := GoQuot(a, b);
    var r := GoRem(a, b);
    assert a == b * q + r;
    if r == 0 || a >= 0 {
      assert 0 <= r < Abs(b);
      DivUnique(a, b, q, r);
    } else if b > 0 {
      assert a == b * (q - 1) + (r + b) && 0 <= r + b < b;
      DivUnique(a, b, q - 1, r + b);
    } else {
      assert a == b * (q + 1) + (r - b) && 0 <= r - b < -b;
      DivUnique(a, b, q + 1, r - b);
    }
  }

  /** Euclidean division is the only split with a remainder in [0, |b|). */
  lemma DivUnique(a: int, b: int, q: int, r: int)
    requires b != 0 && a == b * q + r && 0 <= r < Abs(b)
    ensures a / b == q
  {
    var e := a / b;
    assert a == b * e + a % b && 0 <= a % b < Abs(b);
    var k := q - e;
    assert b * k == a % b - r by {
      assert b * q - b * e == b * (q - e);
    }
    if k != 0 {
      MulAtLeast(b, k);
    }
  }

  /** A non-zero multiple of b is at least |b| away from zero. */
  lemma MulAtLeast(b: int, k: int)
    requires k != 0
    ensures Abs(b * k) >= Abs(b)
  {
    if b >= 0 && k > 0 {
      MulGrows(b, k);
    } else if b >= 0 {
      MulGrows(b, -k);
      assert b * k == -(b * -k);
    } else if k > 0 {
      MulGrows(-b, k);
      assert b * k == -((-b) * k);
    } else {
      MulGrows(-b, -k);
      assert b * k == (-b) * (-k);
    }
  }

  /** A natural number times a positive one is at least the first. */
  lemma MulGrows(d: int, j: int)
    requires d >= 0 && j >= 1
    ensures d * j >= d
  {
    assert d * j == d + d * (j - 1);
  }

  /** The case where the two divisions differ: Go gives -7 / 2 == -3 and
      -7 % 2 == -1, where the Euclidean pair is -4 and 1. */
  lemma ScenarioNegativeDividend()
    ensures GoQuot(-7, 2) == -3 && GoRem(-7, 2) == -1
    ensures (-7) / 2 == -4 && (-7) % 2 == 1
  {
    GoQuotVersusEuclid(-7, 2);
  }

  /** `fyne.Max`: the larger of two lengths. */
  function Max(a: real, b: real): (m: real)
    ensures m >= a && m >= b && (m == a || m == b)
  {
    if a > b then a else b
  }

  /** The sum of a sequence of lengths: the first plus the sum of the rest.
      `SumSnoc` gives the left-to-right accumulation the layout loops do. */
  function Sum(xs: seq<real>): real
  {
    if |xs| == 0 then 0.0 else xs[0] + Sum(xs[1..])
  }

  /** The running maximum of a sequence of lengths, starting from zero as the
      layout loops do (`if h > maxHeight { maxHeight = h }`). */
  function MaxFromZero(xs: seq<real>): (m: real)
    ensures m >= 0.0
    ensures forall k :: 0 <= k < |xs| ==> xs[k] <= m
    ensures m == 0.0 || exists k :: 0 <= k < |xs| && xs[k] == m
  {
    if |xs| == 0 then 0.0 else Max(xs[0], MaxFromZero(xs[1..]))
  }

  /** `k` copies of a length added one at a time, as a layout loop adds a
      gap after each child. */
  function Repeated(k: nat, x: real): real
  {
    if k == 0 then 0.0 else Repeated(k - 1, x) + x
  }

  lemma {:induction false} RepeatedIsProduct(k: nat, x: real)
    ensures Repeated(k, x) == k as real * x
  {
    if k > 0 {
      RepeatedIsProduct(k - 1, x);
    }
  }

  lemma {:induction false} SumSplit(xs: seq<real>, i: nat)
    requires i <= |xs|
    ensures Sum(xs) == Sum(xs[..i]) + Sum(xs[i..])
    decreases i
  {
    if i == 0 {
      assert xs[..0] == [];
      assert xs[0..] == xs;
    } else {
      SumSplit(xs[1..], i - 1);
      assert xs[1..][..i-1] == xs[..i][1..];
      assert xs[1..][i-1..] == xs[i..];
    }
  }

  lemma SumSnoc(xs: seq<real>, x: real)
    ensures Sum(xs + [x]) == Sum(xs) + x
  {
    SumSplit(xs + [x], |xs|);
    assert (xs + [x])[..|xs|] == xs;
    assert (xs + [x])[|xs|..] == [x];
  }

  lemma {:induction false} SumNonNegative(xs: seq<real>)
    requires forall k :: 0 <= k < |xs| ==> xs[k] >= 0.0
    ensures Sum(xs) >= 0.0
    decreases |xs|
  {
    if |xs| > 0 {
      SumNonNegative(xs[1..]);
    }
  }
}
