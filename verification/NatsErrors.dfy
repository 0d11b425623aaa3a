/** The error callback logs at exponentially spaced counts. */
module NatsErrors {
  /** Python's `a & b` on non-negative integers. */
  function BitAnd(a: nat, b: nat): nat {
    if a == 0 || b == 0 then 0
    else (if a % 2 == 1 && b % 2 == 1 then 1 else 0) + 2 * BitAnd(a / 2, b / 2)
  }

  function Pow2(k: nat): nat { if k == 0 then 1 else 2 * Pow2(k - 1) }

  function FloorLog2(n: nat): nat
    requires n >= 1
  {
    if n == 1 then 0 else 1 + FloorLog2(n / 2)
  }

  /** `n == 1 or (n & (n - 1)) == 0`. */
  predicate LogsAt(n: nat)
    requires n >= 1
  {
    n == 1 || BitAnd(n, n - 1) == 0
  }

  predicate IsPowerOfTwo(n: nat) { exists k: nat {:trigger Pow2(k)} :: k <= n && n == Pow2(k) }

  lemma {:induction false} AndSelf(n: nat)
    ensures BitAnd(n, n) == n
  {
    if n > 0 { AndSelf(n / 2); }
  }

  lemma {:induction false} LogBounds(n: nat)
    requires n >= 1
    ensures Pow2(FloorLog2(n)) <= n < 2 * Pow2(FloorLog2(n)) && FloorLog2(n) <= n
  {
    if n > 1 { LogBounds(n / 2); }
  }

  lemma {:induction false} Pow2Log(k: nat)
    ensures Pow2(k) >= 1 && FloorLog2(Pow2(k)) == k && k <= Pow2(k)
  {
    if k > 0 { Pow2Log(k - 1); }
  }

  lemma {:induction false} AndIsPower(n: nat)
    requires n >= 1
    ensures BitAnd(n, n - 1) == 0 <==> Pow2(FloorLog2(n)) == n
  {
    if n > 1 {
      if n % 2 == 0 {
        AndIsPower(n / 2);
        assert (n - 1) / 2 == n / 2 - 1 && (n - 1) % 2 == 1;
        assert BitAnd(n, n - 1) == 2 * BitAnd(n / 2, n / 2 - 1);
      } else {
        AndSelf(n / 2);
        assert (n - 1) / 2 == n / 2 && (n - 1) % 2 == 0;
      }
    }
  }

  /** The bit trick recognises exactly the powers of two. */
  lemma LogsAtPowers(n: nat)
    requires n >= 1
    ensures LogsAt(n) <==> IsPowerOfTwo(n)
  {
    AndIsPower(n);
    LogBounds(n);
    if IsPowerOfTwo(n) {
      var k: nat :| k <= n && n == Pow2(k);
      Pow2Log(k);
    }
  }

  /** The warnings logged by a run of `m` errors from a zero counter. */
  function Warnings(m: nat): nat {
    if m == 0 then 0 else Warnings(m - 1) + if LogsAt(m) then 1 else 0
  }

  lemma {:induction false} LogStep(n: nat)
    requires n >= 2
    ensures FloorLog2(n) == FloorLog2(n - 1) + if Pow2(FloorLog2(n)) == n then 1 else 0
  {
    if n > 3 {
      if n % 2 == 0 {
        LogStep(n / 2);
        assert (n - 1) / 2 == n / 2 - 1;
      } else {
        assert (n - 1) / 2 == n / 2;
      }
    }
  }

  /** A run of m errors logs floor(log2 m) + 1 warnings. */
  lemma {:induction false} WarningsAreLogarithmic(m: nat)
    requires m >= 1
    ensures Warnings(m) == FloorLog2(m) + 1
  {
    if m == 1 {
      assert Warnings(1) == Warnings(0) + 1;
    } else {
      WarningsAreLogarithmic(m - 1);
      AndIsPower(m);
      LogStep(m);
    }
  }
}
