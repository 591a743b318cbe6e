/** Multiplication and Euclidean division facts used by the table renderer's column
    counter and width loops. */
module Arith {
  lemma MulSucc(a: nat, n: nat)
    ensures (a + 1) * n == a * n + n
  {
  }

  lemma {:induction false} MulAtLeast(d: nat, n: nat)
    requires d >= 1
    ensures d * n >= n
  {
    if d > 1 {
      MulAtLeast(d - 1, n);
      assert d * n == (d - 1) * n + n;
    }
  }

  lemma ModOfSum(q: int, n: int, t: int)
    requires n > 0 && 0 <= t < n
    ensures (q * n + t) % n == t && (q * n + t) / n == q
  {
    var a := q * n + t;
    var q2, t2 := a / n, a % n;
    var d := q - q2;
    assert d * n == t2 - t by {
      assert a == q2 * n + t2;
      assert d * n == q * n - q2 * n;
    }
    MulBounds(d, n);
    if d >= 1 {
      assert false;
    } else if d <= -1 {
      assert false;
    }
  }

  lemma MulBounds(d: int, n: nat)
    ensures d >= 1 ==> d * n >= n
    ensures d <= -1 ==> d * n + n <= 0
  {
    if d >= 1 {
      MulAtLeast(d, n);
    } else if d <= -1 {
      MulAtLeast(-d, n);
      assert d * n == -((-d) * n);
    }
  }

  /** No index strictly between two members of a residue class modulo `n` is in it. */
  lemma ModStep(i: nat, n: nat, d: nat)
    requires 0 < d < n
    ensures (i + d) % n != i % n
  {
    var q, r := i / n, i % n;
    assert i == q * n + r;
    if r + d < n {
      ModOfSum(q, n, r + d);
    } else {
      MulSucc(q, n);
      ModOfSum(q + 1, n, r + d - n);
    }
  }

  lemma ModAddPeriod(i: nat, n: nat)
    requires 0 < n
    ensures (i + n) % n == i % n
  {
    var q, r := i / n, i % n;
    assert i + n == (q + 1) * n + r;
    ModOfSum(q + 1, n, r);
  }
}
