/** Month-by-month balance of a fixed-payment loan, and its closed form. */
module Amortization {
  /** Outstanding balance after `k` monthly payments: a month's interest is
      added, then the payment is taken off. */
  function Balance(principal: real, r: real, payment: real, k: nat): real
  {
    if k == 0 then principal
    else Balance(principal, r, payment, k - 1) * (1.0 + r) - payment
  }

  /** `(1 + r)^k`, without the bounds `PowNat` carries. */
  function Growth(r: real, k: nat): real
  {
    if k == 0 then 1.0 else (1.0 + r) * Growth(r, k - 1)
  }

  lemma {:induction false} BalanceClosedForm(principal: real, r: real, payment: real, k: nat)
    ensures Balance(principal, r, payment, k) * r
         == principal * r * Growth(r, k) - payment * (Growth(r, k) - 1.0)
  {
    if k == 0 {
      BalanceStartAlgebra(Balance(principal, r, payment, 0), r, payment, principal, Growth(r, 0));
    } else {
      BalanceClosedForm(principal, r, payment, k - 1);
      BalanceStepAlgebra(Balance(principal, r, payment, k - 1), Balance(principal, r, payment, k),
                         r, payment, principal, Growth(r, k - 1), Growth(r, k));
    }
  }

  /** The month-0 case of `BalanceClosedForm`, on plain reals. */
  lemma BalanceStartAlgebra(b: real, r: real, m: real, p: real, g: real)
    requires b == p && g == 1.0
    ensures b * r == p * r * g - m * (g - 1.0)
  {
  }

  /** One month of `BalanceClosedForm`, on plain reals: `b` and `g` are the
      balance and the power before the month, `b'` and `g'` after it. */
  lemma BalanceStepAlgebra(b: real, b': real, r: real, m: real, p: real, g: real, g': real)
    requires b * r == p * r * g - m * (g - 1.0)
    requires b' == b * (1.0 + r) - m && g' == (1.0 + r) * g
    ensures b' * r == p * r * g' - m * (g' - 1.0)
  {
    calc {
      b' * r;
      (b * (1.0 + r) - m) * r;
      (b * r) * (1.0 + r) - m * r;
      (p * r * g - m * (g - 1.0)) * (1.0 + r) - m * r;
      p * r * g * (1.0 + r) - m * ((g - 1.0) * (1.0 + r) + r);
      p * r * ((1.0 + r) * g) - m * ((1.0 + r) * g - 1.0);
    }
  }
}
