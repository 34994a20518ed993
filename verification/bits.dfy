/**
  Basis-index arithmetic of an n-qubit register.

  A basis index `k` of an n-qubit register is a number below `2^n` whose binary
  digits are the qubit values. Qubit 0 is the MOST significant digit: this is the
  order `np.kron` produces when the per-qubit factors are folded left to right,
  and the order `itertools.product` enumerates the basis labels in.

  The digit functions are defined by peeling off the last (least significant)
  qubit, which is exactly how one Kronecker step extends an index, so that the
  proofs about the Kronecker fold need only division and remainder by 2.
 */
module Bits {

  type Bit = b: nat | b <= 1

  function Pow2(n: nat): (p: nat)
    ensures p >= 1
  {
    if n == 0 then 1 else 2 * Pow2(n - 1)
  }

  /** Dropping the last qubit of an index of an `n`-qubit register gives an index of an `(n-1)`-qubit one. */
  lemma HalfBelow(n: nat, k: nat)
    requires n >= 1 && k < Pow2(n)
    ensures k / 2 < Pow2(n - 1)
  {
  }

  /** The value of qubit `i` in basis index `k` of an `n`-qubit register. */
  function BitAt(n: nat, k: nat, i: nat): (b: Bit)
    requires i < n
    decreases n
  {
    if i == n - 1 then k % 2 else BitAt(n - 1, k / 2, i)
  }

  /** Basis index `k` with qubit `q` forced to `b`. */
  function SetBit(n: nat, k: nat, q: nat, b: Bit): (r: nat)
    requires q < n
    ensures k < Pow2(n) ==> r < Pow2(n)
    decreases n
  {
    if q == n - 1 then 2 * (k / 2) + b else 2 * SetBit(n - 1, k / 2, q, b) + k % 2
  }

  /** Basis index `k` with qubit `q` negated: the index an X gate on `q` exchanges with `k`. */
  function Flip(n: nat, k: nat, q: nat): (r: nat)
    requires q < n
    ensures k < Pow2(n) ==> r < Pow2(n)
  {
    SetBit(n, k, q, 1 - BitAt(n, k, q))
  }

  /** `SetBit` changes qubit `q` to `b` and leaves every other qubit as it was. */
  lemma {:induction false} SetBitDigits(n: nat, k: nat, q: nat, b: Bit, i: nat)
    requires q < n && i < n
    ensures BitAt(n, SetBit(n, k, q, b), i) == if i == q then b else BitAt(n, k, i)
    decreases n
  {
    if q == n - 1 {
      if i < n - 1 {
        assert SetBit(n, k, q, b) / 2 == k / 2;
      }
    } else {
      if i < n - 1 {
        SetBitDigits(n - 1, k / 2, q, b, i);
        assert SetBit(n, k, q, b) / 2 == SetBit(n - 1, k / 2, q, b);
      }
    }
  }

  /** Writing a qubit's own value back leaves the index unchanged. */
  lemma {:induction false} SetBitOwnDigit(n: nat, k: nat, q: nat)
    requires q < n
    ensures SetBit(n, k, q, BitAt(n, k, q)) == k
    decreases n
  {
    if q < n - 1 {
      SetBitOwnDigit(n - 1, k / 2, q);
    }
  }

  /** A second `SetBit` on the same qubit overrides the first. */
  lemma {:induction false} SetBitTwice(n: nat, k: nat, q: nat, b: Bit, b': Bit)
    requires q < n
    ensures SetBit(n, SetBit(n, k, q, b), q, b') == SetBit(n, k, q, b')
    decreases n
  {
    var k1 := SetBit(n, k, q, b);
    if q == n - 1 {
      assert k1 / 2 == k / 2;
    } else {
      assert k1 / 2 == SetBit(n - 1, k / 2, q, b);
      assert k1 % 2 == k % 2;
      SetBitTwice(n - 1, k / 2, q, b, b');
    }
  }

  /**
    Positional reading of `SetBit`: qubit `q` carries the weight `2^(n-1-q)`, so
    raising it from 0 to 1 adds that weight, lowering it subtracts the weight,
    and writing its own value changes nothing.
   */
  lemma {:induction false} SetBitWeight(n: nat, k: nat, q: nat, b: Bit)
    requires q < n
    ensures SetBit(n, k, q, b) ==
      if b == BitAt(n, k, q) then k
      else if b == 1 then k + Pow2(n - 1 - q)
      else k - Pow2(n - 1 - q)
    decreases n
  {
    if q < n - 1 {
      SetBitWeight(n - 1, k / 2, q, b);
      assert Pow2(n - 1 - q) == 2 * Pow2(n - 2 - q);
    }
  }

  /** Indices `r` and `c` of an `n`-qubit register agree on each of the first `k` qubits other than `q`. */
  predicate AgreeOff(n: nat, r: nat, c: nat, q: int, k: nat)
    requires k <= n
  {
    k == 0 || (AgreeOff(n, r, c, q, k - 1) && (k - 1 == q || BitAt(n, r, k - 1) == BitAt(n, c, k - 1)))
  }

  /** Agreement on the first `k < n` qubits is unaffected by dropping the last qubit. */
  lemma {:induction false} AgreeOffShift(n: nat, r: nat, c: nat, q: int, k: nat)
    requires k < n
    ensures AgreeOff(n, r, c, q, k) == AgreeOff(n - 1, r / 2, c / 2, q, k)
  {
    if k > 0 {
      AgreeOffShift(n, r, c, q, k - 1);
      assert BitAt(n, r, k - 1) == BitAt(n - 1, r / 2, k - 1);
      assert BitAt(n, c, k - 1) == BitAt(n - 1, c / 2, k - 1);
    }
  }

  /** Two indices that agree on every qubit are equal. */
  lemma {:induction false} AgreeAll(n: nat, r: nat, c: nat, q: int)
    requires !(0 <= q < n) && r < Pow2(n) && c < Pow2(n)
    ensures AgreeOff(n, r, c, q, n) <==> r == c
    decreases n
  {
    if n > 0 {
      HalfBelow(n, r);
      HalfBelow(n, c);
      AgreeOffShift(n, r, c, q, n - 1);
      AgreeAll(n - 1, r / 2, c / 2, q);
      assert AgreeOff(n, r, c, q, n) <==> r / 2 == c / 2 && r % 2 == c % 2;
    }
  }

  /** `r` agrees with `c` off qubit `q` exactly when it is `c` with qubit `q` set to `r`'s own value there. */
  lemma {:induction false} AgreeOffSetBit(n: nat, r: nat, c: nat, q: nat)
    requires q < n && r < Pow2(n) && c < Pow2(n)
    ensures AgreeOff(n, r, c, q, n) <==> r == SetBit(n, c, q, BitAt(n, r, q))
    decreases n
  {
    HalfBelow(n, r);
    HalfBelow(n, c);
    AgreeOffShift(n, r, c, q, n - 1);
    if q == n - 1 {
      AgreeAll(n - 1, r / 2, c / 2, q);
      assert AgreeOff(n, r, c, q, n) <==> r / 2 == c / 2;
    } else {
      AgreeOffSetBit(n - 1, r / 2, c / 2, q);
      var b := BitAt(n, r, q);
      assert b == BitAt(n - 1, r / 2, q);
      assert SetBit(n, c, q, b) == 2 * SetBit(n - 1, c / 2, q, b) + c % 2;
      assert AgreeOff(n, r, c, q, n) <==> r / 2 == SetBit(n - 1, c / 2, q, b) && r % 2 == c % 2;
    }
  }

  /** Flipping the same qubit twice restores the index. */
  lemma FlipInvolution(n: nat, k: nat, q: nat)
    requires q < n
    ensures Flip(n, Flip(n, k, q), q) == k
  {
    var b := BitAt(n, k, q);
    SetBitDigits(n, k, q, 1 - b, q);
    SetBitTwice(n, k, q, 1 - b, b);
    SetBitOwnDigit(n, k, q);
  }

  /** `Flip` negates qubit `q` of the index and keeps every other qubit. */
  lemma FlipDigits(n: nat, k: nat, q: nat, i: nat)
    requires q < n && i < n
    ensures BitAt(n, Flip(n, k, q), i) == if i == q then 1 - BitAt(n, k, q) else BitAt(n, k, i)
  {
    SetBitDigits(n, k, q, 1 - BitAt(n, k, q), i);
  }
}
