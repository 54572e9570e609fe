/** The few pieces of JavaScript number and object semantics the engines rely on,
    stated over Dafny's exact `real` arithmetic (IEEE-754 rounding is not modelled). */
module Js {

  /** `Math.round(x)`: the nearest integer, halves rounded toward +infinity,
      so `Math.round(-2.5) == -2`. */
  function Round(x: real): (n: int)
    ensures x - 0.5 < n as real <= x + 0.5
  {
    (x + 0.5).Floor
  }

  lemma RoundMonotone(x: real, y: real)
    requires x <= y
    ensures Round(x) <= Round(y)
  {
    assert (x + 0.5).Floor as real <= x + 0.5 <= y + 0.5;
  }

  lemma MulNonneg(a: real, b: real)
    requires a >= 0.0 && b >= 0.0
    ensures a * b >= 0.0
  {
  }

  lemma MulPos(a: real, b: real)
    requires a > 0.0 && b > 0.0
    ensures a * b > 0.0
  {
  }

  /** Dividing a non-negative amount by a larger positive divisor never gives more. */
  lemma DivAntitone(c: real, d1: real, d2: real)
    requires c >= 0.0 && 0.0 < d1 <= d2
    ensures c / d2 <= c / d1
  {
    var q1, q2 := c / d1, c / d2;
    assert q1 * d1 == c && q2 * d2 == c;
    assert q2 >= 0.0;
    MulNonneg(d2 - d1, q2);
    assert (q1 - q2) * d1 >= 0.0;
    if q1 < q2 { MulNonneg(q2 - q1, d1); }
  }

  /** `b` raised to a natural power, by repeated multiplication. */
  function PowNat(b: real, n: nat): (p: real)
    ensures b > 0.0 ==> p > 0.0
    ensures b >= 1.0 ==> p >= 1.0
    ensures b > 1.0 && n > 0 ==> p > 1.0
  {
    if n == 0 then 1.0
    else
      var q := PowNat(b, n - 1);
      assert b >= 1.0 && q >= 1.0 ==> b * q >= q;
      b * q
  }

  /** `Math.pow(b, n)` for an integer exponent and a positive base. */
  function Pow(b: real, n: int): (p: real)
    requires b > 0.0
    ensures p > 0.0
    ensures b > 1.0 && n > 0 ==> p > 1.0
    ensures b > 1.0 && n < 0 ==> p < 1.0
  {
    if n >= 0 then PowNat(b, n)
    else
      var q := PowNat(b, -n);
      assert b > 1.0 ==> q > 1.0;
      1.0 / q
  }

  /** A JavaScript number where the model needs to see NaN. */
  datatype Number = Finite(value: real) | NaN

  /** The keys every plain JavaScript object inherits from `Object.prototype`:
      looking one of them up in an object literal yields a function (or, for
      `__proto__`, an object), never `undefined`. */
  const InheritedKeys: set<string> := {
    "constructor", "hasOwnProperty", "isPrototypeOf", "propertyIsEnumerable",
    "toLocaleString", "toString", "valueOf", "__proto__",
    "__defineGetter__", "__defineSetter__", "__lookupGetter__", "__lookupSetter__"
  }
}

module Wrappers {
  datatype Option<+T> = None | Some(value: T)
}
