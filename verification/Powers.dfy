/** Doubling, for the exponential back-offs. */
module Powers {
  function Pow2(n: nat): nat { if n == 0 then 1 else 2 * Pow2(n - 1) }

  lemma {:induction false} Pow2Positive(n: nat)
    ensures Pow2(n) >= 1
  {
    if n == 0 {
    } else {
      Pow2Positive(n - 1);
    }
  }
}
