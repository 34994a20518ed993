/**
  The folded controlled term `O2`, the Kronecker fold of `Controlled(n, ctrl, t, g)`,
  column by column: the single-gate operator for `g` on `t`, masked by qubit
  `ctrl` of the column.
 */
module ControlledFold {
  import opened Bits
  import opened Kron
  import opened Layouts
  import opened PlacedFold

  /**
    Over the first `k` positions, the controlled layout's product is the
    single-gate layout's product, except that it vanishes once the control
    position is passed with qubit `ctrl` of the column at 0.
   */
  lemma {:induction false} ControlledProductUpTo(n: nat, ctrl: int, t: int, g: Mat2, r: nat, c: nat, k: nat)
    requires k <= n && ctrl != t
    ensures PositionProduct(Controlled(n, ctrl, t, g), r, c, k)
      == if 0 <= ctrl < k && BitAt(n, c, ctrl) == 0 then 0 else PositionProduct(Placed(n, t, g), r, c, k)
  {
    if k > 0 {
      ControlledProductUpTo(n, ctrl, t, g, r, c, k - 1);
      var cs, ps := Controlled(n, ctrl, t, g), Placed(n, t, g);
      var br, bc := BitAt(n, r, k - 1), BitAt(n, c, k - 1);
      assert PositionProduct(cs, r, c, k) == PositionProduct(cs, r, c, k - 1) * cs[k - 1].At(br, bc);
      assert PositionProduct(ps, r, c, k) == PositionProduct(ps, r, c, k - 1) * ps[k - 1].At(br, bc);
      if k - 1 == ctrl {
        assert cs[k - 1] == Proj1 && ps[k - 1] == Identity;
        if bc == 0 {
          assert Proj1.At(br, bc) == 0;
        } else {
          assert Proj1.At(br, bc) == Identity.At(br, bc);
        }
      } else {
        assert cs[k - 1] == ps[k - 1];
      }
    }
  }

  /**
    Column `c` of the controlled term `O2` (control and target distinct and in
    range): zero when qubit `ctrl` of `c` is 0; otherwise column `bit_t(c)` of
    `g` at the two rows that agree with `c` off qubit `t`.
   */
  lemma ControlledEntry(n: nat, ctrl: nat, t: nat, g: Mat2, r: nat, c: nat)
    requires ctrl < n && t < n && ctrl != t
    requires r < Pow2(n) && c < Pow2(n)
    ensures Reduce(Controlled(n, ctrl, t, g))[r][c]
      == ControlledColumn(n, ctrl, t, g, r, c)
  {
    FoldEntry(Controlled(n, ctrl, t, g), r, c);
    ControlledProductUpTo(n, ctrl, t, g, r, c, n);
    PlacedFullProduct(n, t, g, r, c);
  }
}
