/** Powers of natural numbers. */
module Powers {

  function Pow(r: nat, k: nat): nat { if k == 0 then 1 else r * Pow(r, k - 1) }

  lemma {:induction false} PowPositive(r: nat, k: nat)
    requires r >= 1
    ensures Pow(r, k) >= 1
  {
    if k > 0 { PowPositive(r, k - 1); }
  }
}
