/** Small facts about products, stated one at a time for the solver's sake. */
module Arith {
  lemma {:induction false} MulLe(a: int, b: int, k: nat)
    requires a <= b
    ensures a * k <= b * k
  {
    if k > 0 { MulLe(a, b, k - 1); }
  }

  lemma {:induction false} MulLt(a: int, b: int, k: nat)
    requires a < b && k > 0
    ensures a * k < b * k
  {
    MulLe(a, b, k - 1);
  }

  lemma CancelLt(a: int, b: int, k: nat)
    requires a * k < b * k
    ensures a < b
  {
    if b <= a { MulLe(b, a, k); }
  }

  lemma OneMore(n: nat, k: nat)
    ensures (n + 1) * k == n * k + k && n * k >= 0
  {
  }

  lemma Swap(a: int, b: int, c: int)
    ensures (a * b) * c == (a * c) * b == a * (b * c)
  {
  }
}
