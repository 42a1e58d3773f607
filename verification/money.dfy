/** Money is held as a whole number of cents (the amounts are two-place
    decimals). Splitting an amount `c` among `n` winners rounds the exact
    quotient c / n to the nearest cent, ties to the even cent, which is what
    rounding a decimal to two places does under the default decimal
    context. */
module Money {

  function Abs(x: int): nat {
    if x < 0 then -x else x
  }

  /** `n` shares of `x` cents: n * x, written as repeated addition so that
      the payout proofs see a plain function rather than a product of two
      unknowns. */
  function Times(n: nat, x: int): int {
    if n == 0 then 0 else x + Times(n - 1, x)
  }

  lemma {:induction false} TimesIsProduct(n: nat, x: int)
    ensures Times(n, x) == n * x
  {
    if n > 0 {
      TimesIsProduct(n - 1, x);
    }
  }

  /** One more share of each of `n` winners costs `n` cents more. */
  lemma {:induction false} TimesStep(n: nat, x: int)
    ensures Times(n, x + 1) == Times(n, x) + n
  {
    if n > 0 {
      TimesStep(n - 1, x);
    }
  }

  /** Raising the share raises `n` shares by at least `n` cents, and by at
      least twice that when it goes up by two or more. */
  lemma {:induction false} TimesGrows(n: nat, p: int, q: int)
    requires p < q
    ensures Times(n, q) >= Times(n, p) + n
    ensures q > p + 1 ==> Times(n, q) >= Times(n, p) + 2 * n
    decreases q - p
  {
    TimesStep(n, p);
    if q > p + 1 {
      TimesGrows(n, p + 1, q);
    }
  }

  /** Euclidean division of `c` by `n`, stated with Times. */
  lemma {:induction false} DivMod(c: int, n: nat)
    requires n > 0
    ensures Times(n, c / n) + c % n == c
    ensures 0 <= c % n < n
  {
    TimesIsProduct(n, c / n);
  }

  /** The cent amount nearest to c / n, ties going to the even one. */
  function RoundHalfEven(c: int, n: nat): (q: int)
    requires n > 0
    ensures 2 * Abs(c - Times(n, q)) <= n
    ensures 2 * Abs(c - Times(n, q)) == n ==> q % 2 == 0
  {
    var fl := c / n;
    var rem := c % n;
    DivMod(c, n);
    TimesStep(n, fl);
    if 2 * rem < n then fl
    else if 2 * rem > n then fl + 1
    else if fl % 2 == 0 then fl
    else fl + 1
  }

  /** The two conditions above pin the rounded value down: no other
      amount is as near to c / n with the tie rule respected. */
  lemma {:induction false} RoundHalfEvenUnique(c: int, n: nat, q: int)
    requires n > 0
    requires 2 * Abs(c - Times(n, q)) <= n
    requires 2 * Abs(c - Times(n, q)) == n ==> q % 2 == 0
    ensures q == RoundHalfEven(c, n)
  {
    var p := RoundHalfEven(c, n);
    if p <= q {
      NearestIsUnique(c, n, p, q);
    } else {
      NearestIsUnique(c, n, q, p);
    }
  }

  lemma {:induction false} NearestIsUnique(c: int, n: nat, p: int, q: int)
    requires n > 0 && p <= q
    requires 2 * Abs(c - Times(n, p)) <= n && (2 * Abs(c - Times(n, p)) == n ==> p % 2 == 0)
    requires 2 * Abs(c - Times(n, q)) <= n && (2 * Abs(c - Times(n, q)) == n ==> q % 2 == 0)
    ensures p == q
  {
    if p < q {
      TimesGrows(n, p, q);
      TimesStep(n, p);
    }
  }

  /** Each winner's share when `amount` is split `n` ways. */
  function Share(amount: int, n: nat): int
    requires n > 0
  {
    RoundHalfEven(amount, n)
  }

  /** The first winner's amount: the share plus whatever is left over once
      every winner has been given a share. The leftover may be negative. */
  function FirstShare(amount: int, n: nat): int
    requires n > 0
  {
    var share := Share(amount, n);
    share + (amount - Times(n, share))
  }

  /** The shares always add back up to the amount being split, to the cent,
      and the first share is never more than n / 2 cents away from the
      others. */
  lemma {:induction false} SplitIsExact(amount: int, n: nat)
    requires n > 0
    ensures FirstShare(amount, n) + Times(n - 1, Share(amount, n)) == amount
    ensures 2 * Abs(FirstShare(amount, n) - Share(amount, n)) <= n
  {
  }

  /** 2.00 split three ways: each share is 0.67 and the first winner gets
      0.66. */
  lemma SplitThreeWays()
    ensures Share(200, 3) == 67 && FirstShare(200, 3) == 66
  {
    assert Times(3, 67) == 201;
  }

  /** 0.05 split two ways: the exact half-cent 2.5 rounds to the even 2, so
      the first winner gets 3. */
  lemma SplitHalfCent()
    ensures Share(5, 2) == 2 && FirstShare(5, 2) == 3
  {
    assert Times(2, 2) == 4;
  }

  /** 2.00 split two ways: 1.00 each. */
  lemma SplitEvenly()
    ensures Share(200, 2) == 100 && FirstShare(200, 2) == 100
  {
    assert Times(2, 100) == 200;
  }

  /** 1.00 split two ways: 0.50 each. */
  lemma SplitDollar()
    ensures Share(100, 2) == 50 && FirstShare(100, 2) == 50
  {
    assert Times(2, 50) == 100;
  }
}
