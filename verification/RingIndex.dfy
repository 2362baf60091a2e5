// Positions on a ring of n slots after k steps from slot 0.
module RingIndex {

  function Next(n: nat, pos: nat): nat {
    if pos + 1 >= n then 0 else pos + 1
  }

  function At(n: nat, k: nat): (pos: nat)
    requires 0 < n
    ensures pos < n
  {
    if k == 0 then 0 else Next(n, At(n, k - 1))
  }

  lemma AtNext(n: nat, k: nat)
    requires 0 < n
    ensures At(n, k + 1) == Next(n, At(n, k))
  {
  }

  // d steps within one round move d slots ahead, around the end.
  lemma {:induction false} Ahead(n: nat, k: nat, d: nat)
    requires 0 < n && d <= n
    ensures At(n, 0) == 0
    ensures At(n, k + d) == if At(n, k) + d < n then At(n, k) + d else At(n, k) + d - n
  {
    if d == 0 {
    } else {
      Ahead(n, k, d - 1);
    }
  }

  // Within one round no slot is met twice.
  lemma Distinct(n: nat, i: nat, j: nat)
    requires i < j < i + n
    ensures At(n, i) != At(n, j)
  {
    Ahead(n, i, j - i);
  }
}
