/**
  The basis-label list `indexBin` of a register: every `n`-digit binary tuple,
  in the order `itertools.product` yields them, joined into one label.

  `itertools.product` enumerates digit tuples with the last position varying
  fastest, so entry `k` is the binary spelling of `k` with qubit 0 as the most
  significant digit: the same order the Kronecker fold gives the state vector.

  The join is a `reduce` without an initial value, so a 1-tuple is returned as
  it is: for a one-qubit register the labels are the integers 0 and 1, not the
  strings "0" and "1". `Label` keeps both shapes apart.
 */
module Labels {
  import opened Bits

  datatype Label = Bare(digit: Bit) | Spelled(text: string)

  /**
    One round of `itertools.product`: every tuple of `ts`, in order, extended by
    the digit 0 and then by the digit 1.
   */
  function Extend(ts: seq<seq<Bit>>): (us: seq<seq<Bit>>)
    ensures |us| == 2 * |ts|
  {
    if ts == [] then [] else [ts[0] + [0], ts[0] + [1]] + Extend(ts[1..])
  }

  /** Extended tuple `k` is tuple `k / 2` followed by the digit `k % 2`. */
  lemma {:induction false} ExtendAt(ts: seq<seq<Bit>>, k: nat)
    requires k < 2 * |ts|
    ensures Extend(ts)[k] == ts[k / 2] + [k % 2]
  {
    if k >= 2 {
      ExtendAt(ts[1..], k - 2);
    }
  }

  /** `itertools.product([0, 1], repeat=n)`, each tuple as a sequence of digits. */
  function Product(n: nat): (ps: seq<seq<Bit>>)
    ensures |ps| == Pow2(n)
  {
    if n == 0 then [[]] else Extend(Product(n - 1))
  }

  /** Every tuple of the product has `n` digits. */
  lemma {:induction false} ProductLength(n: nat, k: nat)
    requires k < Pow2(n)
    ensures |Product(n)[k]| == n
  {
    if n > 0 {
      ExtendAt(Product(n - 1), k);
      ProductLength(n - 1, k / 2);
    }
  }

  /** Tuple `k` of the product holds the qubit values of basis index `k`. */
  lemma {:induction false} ProductDigits(n: nat, k: nat, i: nat)
    requires k < Pow2(n) && i < n
    ensures |Product(n)[k]| == n && Product(n)[k][i] == BitAt(n, k, i)
    decreases n
  {
    ExtendAt(Product(n - 1), k);
    ProductLength(n - 1, k / 2);
    if i < n - 1 {
      ProductDigits(n - 1, k / 2, i);
    }
  }

  /** The number a digit tuple spells in binary, first digit most significant. */
  function Value(t: seq<Bit>): (v: nat) {
    if t == [] then 0 else 2 * Value(t[..|t| - 1]) + t[|t| - 1]
  }

  /** Tuple `k` of the product is the binary spelling of `k`. */
  lemma {:induction false} ProductValue(n: nat, k: nat)
    requires k < Pow2(n)
    ensures Value(Product(n)[k]) == k
    decreases n
  {
    if n > 0 {
      var t := Product(n - 1)[k / 2];
      ExtendAt(Product(n - 1), k);
      ProductLength(n - 1, k / 2);
      assert (t + [k % 2])[..|t|] == t;
      ProductValue(n - 1, k / 2);
    }
  }

  /** `str(d)` for a digit. */
  function DigitChar(d: Bit): (ch: char) {
    if d == 0 then '0' else '1'
  }

  /** `str(x)` for a value the join has produced so far. */
  function Str(l: Label): (s: string) {
    match l
    case Bare(d) => [DigitChar(d)]
    case Spelled(s) => s
  }

  /**
    The joined label of a digit tuple: the digits are concatenated as strings
    from the left, and a single digit is returned unchanged.
   */
  function Join(t: seq<Bit>): (l: Label)
    requires |t| >= 1
  {
    if |t| == 1 then Bare(t[0])
    else Spelled(Str(Join(t[..|t| - 1])) + [DigitChar(t[|t| - 1])])
  }

  /** The digits of `t`, each written as a character. */
  function Spelling(t: seq<Bit>): (s: string)
    ensures |s| == |t|
  {
    seq(|t|, i requires 0 <= i < |t| => DigitChar(t[i]))
  }

  /** A tuple of two or more digits joins into its spelling; a single digit stays a bare digit. */
  lemma {:induction false} JoinSpells(t: seq<Bit>)
    requires |t| >= 1
    ensures |t| == 1 ==> Join(t) == Bare(t[0])
    ensures |t| >= 2 ==> Join(t) == Spelled(Spelling(t))
  {
    if |t| >= 2 {
      var pre := t[..|t| - 1];
      JoinSpells(pre);
      assert Str(Join(pre)) == Spelling(pre);
      assert Spelling(pre) + [DigitChar(t[|t| - 1])] == Spelling(t);
    }
  }

  /** Distinct tuples of one length join into distinct labels. */
  lemma JoinInjective(t1: seq<Bit>, t2: seq<Bit>)
    requires |t1| == |t2| >= 1 && t1 != t2
    ensures Join(t1) != Join(t2)
  {
    JoinSpells(t1);
    JoinSpells(t2);
    var i :| 0 <= i < |t1| && t1[i] != t2[i];
    if |t1| >= 2 {
      assert Spelling(t1)[i] != Spelling(t2)[i];
    }
  }

  /** `indexBin` of an `n`-qubit register. */
  function IndexBin(n: nat): (labels: seq<Label>)
    requires n >= 1
    ensures |labels| == Pow2(n)
  {
    var ps := Product(n);
    seq(|ps|, k requires 0 <= k < |ps| => ProductLength(n, k); Join(ps[k]))
  }

  /**
    For two or more qubits, label `k` is the `n`-character binary spelling of
    `k`, character `i` being the value of qubit `i`.
   */
  lemma IndexBinSpelling(n: nat, k: nat)
    requires n >= 2 && k < Pow2(n)
    ensures IndexBin(n)[k].Spelled?
    ensures |IndexBin(n)[k].text| == n
    ensures forall i :: 0 <= i < n ==> IndexBin(n)[k].text[i] == DigitChar(BitAt(n, k, i))
  {
    var t := Product(n)[k];
    ProductLength(n, k);
    JoinSpells(t);
    forall i | 0 <= i < n
      ensures IndexBin(n)[k].text[i] == DigitChar(BitAt(n, k, i))
    {
      ProductDigits(n, k, i);
    }
  }

  lemma ProductOne()
    ensures Product(1) == [[0], [1]]
  {
    var p0 := Product(0);
    assert p0 == [[]];
    ExtendAt(p0, 0);
    ExtendAt(p0, 1);
    assert Product(1) == Extend(p0);
    assert Extend(p0)[0] == [0];
    assert Extend(p0)[1] == [1];
  }

  lemma ProductTwo()
    ensures Product(2) == [[0, 0], [0, 1], [1, 0], [1, 1]]
  {
    ProductOne();
    var p1: seq<seq<Bit>> := [[0], [1]];
    ExtendAt(p1, 0);
    ExtendAt(p1, 1);
    ExtendAt(p1, 2);
    ExtendAt(p1, 3);
    assert Product(2) == Extend(p1);
    assert Extend(p1)[0] == [0, 0];
    assert Extend(p1)[1] == [0, 1];
    assert Extend(p1)[2] == [1, 0];
    assert Extend(p1)[3] == [1, 1];
  }

  /** For one qubit the labels are the bare digits 0 and 1. */
  lemma IndexBinOneQubit()
    ensures IndexBin(1) == [Bare(0), Bare(1)]
  {
    ProductOne();
  }

  /** For two qubits the labels are "00", "01", "10", "11", in index order. */
  lemma IndexBinTwoQubits()
    ensures IndexBin(2) == [Spelled("00"), Spelled("01"), Spelled("10"), Spelled("11")]
  {
    ProductTwo();
    var ls := IndexBin(2);
    assert ls[0] == Join([0, 0]) == Spelled("00");
    assert ls[1] == Join([0, 1]) == Spelled("01");
    assert ls[2] == Join([1, 0]) == Spelled("10");
    assert ls[3] == Join([1, 1]) == Spelled("11");
  }

  /** Different basis indices carry different labels. */
  lemma IndexBinDistinct(n: nat, k1: nat, k2: nat)
    requires n >= 1 && k1 < Pow2(n) && k2 < Pow2(n) && k1 != k2
    ensures IndexBin(n)[k1] != IndexBin(n)[k2]
  {
    ProductValue(n, k1);
    ProductValue(n, k2);
    ProductLength(n, k1);
    ProductLength(n, k2);
    JoinInjective(Product(n)[k1], Product(n)[k2]);
  }
}
