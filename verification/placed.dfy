/**
  The folded single-gate operator, the Kronecker fold of `Placed(n, q, g)`,
  column by column, read off the position-product formula of the fold.
 */
module PlacedFold {
  import opened Bits
  import opened Kron
  import opened Layouts

  /**
    The product over the first `k` positions of the single-gate layout: zero
    unless `r` and `c` agree on those positions other than `q`, and then `g`'s
    entry at qubit `q` when `q` is among them.
   */
  lemma {:induction false} PlacedProductUpTo(n: nat, q: int, g: Mat2, r: nat, c: nat, k: nat)
    requires k <= n
    ensures PositionProduct(Placed(n, q, g), r, c, k)
      == if !AgreeOff(n, r, c, q, k) then 0
         else if 0 <= q < k then g.At(BitAt(n, r, q), BitAt(n, c, q))
         else 1
  {
    if k > 0 {
      PlacedProductUpTo(n, q, g, r, c, k - 1);
      var gs := Placed(n, q, g);
      var prev := PositionProduct(gs, r, c, k - 1);
      var br, bc := BitAt(n, r, k - 1), BitAt(n, c, k - 1);
      assert PositionProduct(gs, r, c, k) == prev * gs[k - 1].At(br, bc);
      if k - 1 == q {
        assert gs[k - 1] == g;
      } else {
        assert gs[k - 1] == Identity;
        if br == bc {
          assert Identity.At(br, bc) == 1;
        } else {
          assert Identity.At(br, bc) == 0;
        }
      }
    }
  }

  /**
    The full product of the single-gate layout: `g`'s column `bit_q(c)` at the
    two rows that agree with `c` off qubit `q`, zero elsewhere; with `q`
    outside the register, 1 on the diagonal and 0 off it.
   */
  lemma PlacedFullProduct(n: nat, q: int, g: Mat2, r: nat, c: nat)
    requires r < Pow2(n) && c < Pow2(n)
    ensures 0 <= q < n ==>
      PositionProduct(Placed(n, q, g), r, c, n)
        == Spike(r, SetBit(n, c, q, 0), g.At(0, BitAt(n, c, q)))
         + Spike(r, SetBit(n, c, q, 1), g.At(1, BitAt(n, c, q)))
    ensures !(0 <= q < n) ==> PositionProduct(Placed(n, q, g), r, c, n) == Spike(r, c, 1)
  {
    PlacedProductUpTo(n, q, g, r, c, n);
    if 0 <= q < n {
      var b := BitAt(n, r, q);
      AgreeOffSetBit(n, r, c, q);
      SetBitDigits(n, c, q, 1 - b, q);
      assert r != SetBit(n, c, q, 1 - b);
    } else {
      AgreeAll(n, r, c, q);
    }
  }

  /**
    Column `c` of the operator that places `g` on qubit `q`: it holds column
    `bit_q(c)` of `g`, at the two rows that agree with `c` on every other qubit,
    and zeros elsewhere. With `q` outside the register the operator is the identity.
   */
  lemma PlacedEntry(n: nat, q: int, g: Mat2, r: nat, c: nat)
    requires n >= 1 && r < Pow2(n) && c < Pow2(n)
    ensures 0 <= q < n ==>
      Reduce(Placed(n, q, g))[r][c]
        == Spike(r, SetBit(n, c, q, 0), g.At(0, BitAt(n, c, q)))
         + Spike(r, SetBit(n, c, q, 1), g.At(1, BitAt(n, c, q)))
    ensures !(0 <= q < n) ==> Reduce(Placed(n, q, g))[r][c] == Spike(r, c, 1)
  {
    FoldEntry(Placed(n, q, g), r, c);
    PlacedFullProduct(n, q, g, r, c);
  }
}
