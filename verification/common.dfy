/** Types and arithmetic shared by the components. */
module Common {
  datatype Option<+T> = None | Some(value: T)

  function Pow2(n: nat): (p: nat)
    ensures p >= 1
  {
    if n == 0 then 1 else 2 * Pow2(n - 1)
  }

  /** The number of halvings that bring n down to 1, rounding up. */
  function CeilLog2(n: nat): (l: nat)
    requires n >= 1
    ensures n <= Pow2(l)
    ensures l > 0 ==> Pow2(l - 1) < n
  {
    if n == 1 then 0 else 1 + CeilLog2((n + 1) / 2)
  }

  lemma Pow2Monotone(a: nat, b: nat)
    requires a <= b
    ensures Pow2(a) <= Pow2(b)
    decreases b
  {
    if a < b {
      Pow2Monotone(a, b - 1);
    }
  }

  lemma CeilLog2Monotone(a: nat, b: nat)
    requires 1 <= a <= b
    ensures CeilLog2(a) <= CeilLog2(b)
  {
    var x, y := CeilLog2(a), CeilLog2(b);
    if x > y {
      Pow2Monotone(y, x - 1);
      assert false;
    }
  }
}
