/**
  The register `QuaSimpleCircuit`: its construction, the single-qubit gate
  engine used by `X` (and `H`), and the controlled-gate engine of `CX`.

  Every gate call rebuilds the full `2^n x 2^n` operator by the Kronecker fold
  and replaces the state by `state · operator` (row-vector convention).
 */
module Simulator {
  import opened Bits
  import opened Kron
  import opened Layouts
  import opened PlacedFold
  import opened ControlledFold
  import opened Labels
  import opened Results

  /** `reduce` over an empty list: a register of fewer than one qubit cannot be built. */
  datatype InitError = EmptyRegister

  datatype Circuit = Circuit(numQubits: nat, stateVector: Vector, indexBin: seq<Label>)
  {
    /** What construction establishes and every gate call keeps. */
    predicate Valid() {
      && numQubits >= 1
      && |stateVector| == Pow2(numQubits)
      && indexBin == IndexBin(numQubits)
    }
  }

  /** `|0>`, the single-qubit start state `[1, 0]`. */
  const Ket0: Vector := [1, 0]

  function ZeroFactors(n: nat): (fs: seq<Vector>) {
    seq(n, _ => Ket0)
  }

  /** The Kronecker fold of `n` copies of `|0>` is the basis vector of index 0. */
  lemma {:induction false} ZeroState(n: nat, k: nat)
    requires n >= 1 && k < Pow2(n)
    ensures ReduceVec(ZeroFactors(n))[k] == if k == 0 then 1 else 0
    decreases n
  {
    if n > 1 {
      assert ZeroFactors(n)[..n - 1] == ZeroFactors(n - 1);
      ZeroState(n - 1, k / 2);
      assert ReduceVec(ZeroFactors(n))[k] == ReduceVec(ZeroFactors(n - 1))[k / 2] * Ket0[k % 2];
    }
  }

  /**
    `QuaSimpleCircuit(numQubits)`: the state is `|0...0>` (amplitude 1 at index
    0, 0 elsewhere, length `2^numQubits`) and the labels are `indexBin`. With no
    qubits the `reduce` calls have nothing to fold and construction fails.
   */
  function Init(numQubits: int): (r: Result<Circuit, InitError>)
    ensures r.Success? <==> numQubits >= 1
    ensures r.Success? ==> r.value.Valid() && r.value.numQubits == numQubits
    ensures r.Success? ==>
      forall k :: 0 <= k < |r.value.stateVector| ==>
        r.value.stateVector[k] == if k == 0 then 1 else 0
  {
    if numQubits < 1 then Failure(EmptyRegister)
    else
      var v := ReduceVec(ZeroFactors(numQubits));
      assert forall k :: 0 <= k < |v| ==> v[k] == if k == 0 then 1 else 0 by {
        forall k | 0 <= k < |v| {
          ZeroState(numQubits, k);
        }
      }
      Success(Circuit(numQubits, v, IndexBin(numQubits)))
  }

  // ---------------------------------------------------------------------------
  // Single-qubit gates

  /**
    The engine behind `X` and `H`: fold `Placed(n, q, g)`, `g` on qubit `q`,
    and right-multiply the state by it.
   */
  function ApplyGate(c: Circuit, g: Mat2, q: int): (r: Circuit)
    requires c.Valid()
    ensures r.Valid()
    ensures r.numQubits == c.numQubits && r.indexBin == c.indexBin
  {
    c.(stateVector := Dot(c.stateVector, Reduce(Placed(c.numQubits, q, g))))
  }

  /** `X(qubit)`. */
  function X(c: Circuit, q: int): (r: Circuit)
    requires c.Valid()
    ensures r.Valid()
    ensures r.numQubits == c.numQubits && r.indexBin == c.indexBin
  {
    ApplyGate(c, PauliX, q)
  }

  /**
    Amplitude `k` after gate `g` acts on qubit `q`: the two amplitudes whose
    indices agree with `k` off qubit `q`, weighted by column `bit_q(k)` of `g`.
   */
  function GateOut(v: Vector, n: nat, q: nat, g: Mat2, k: nat): (a: int)
    requires q < n && |v| == Pow2(n) && k < Pow2(n)
  {
    v[SetBit(n, k, q, 0)] * g.At(0, BitAt(n, k, q)) + v[SetBit(n, k, q, 1)] * g.At(1, BitAt(n, k, q))
  }

  /** The projector `P0x0` on qubit `q` keeps amplitude `k` when that qubit is 0 and zeroes it otherwise. */
  lemma ProjectZero(v: Vector, n: nat, q: nat, k: nat)
    requires q < n && |v| == Pow2(n) && k < Pow2(n)
    ensures GateOut(v, n, q, Proj0, k) == if BitAt(n, k, q) == 0 then v[k] else 0
  {
    if BitAt(n, k, q) == 0 {
      SetBitOwnDigit(n, k, q);
    }
  }

  /** The projector `P1x1` on qubit `q` keeps amplitude `k` when that qubit is 1 and zeroes it otherwise. */
  lemma ProjectOne(v: Vector, n: nat, q: nat, k: nat)
    requires q < n && |v| == Pow2(n) && k < Pow2(n)
    ensures GateOut(v, n, q, Proj1, k) == if BitAt(n, k, q) == 1 then v[k] else 0
  {
    if BitAt(n, k, q) == 1 {
      SetBitOwnDigit(n, k, q);
    }
  }

  /** `X` on qubit `q` moves the amplitude of the index with that qubit negated into place `k`. */
  lemma PauliXOut(v: Vector, n: nat, q: nat, k: nat)
    requires q < n && |v| == Pow2(n) && k < Pow2(n)
    ensures GateOut(v, n, q, PauliX, k) == v[Flip(n, k, q)]
  {
  }

  /** The row-vector product with a single-qubit operator, amplitude by amplitude. */
  lemma PlacedProduct(v: Vector, n: nat, q: int, g: Mat2, k: nat)
    requires n >= 1 && |v| == Pow2(n) && k < Pow2(n)
    ensures 0 <= q < n ==>
      Dot(v, Reduce(Placed(n, q, g)))[k] == GateOut(v, n, q, g, k)
    ensures !(0 <= q < n) ==> Dot(v, Reduce(Placed(n, q, g)))[k] == v[k]
  {
    var m := Reduce(Placed(n, q, g));
    forall r | 0 <= r < |v|
      ensures 0 <= q < n ==>
        m[r][k] == Spike(r, SetBit(n, k, q, 0), g.At(0, BitAt(n, k, q)))
                 + Spike(r, SetBit(n, k, q, 1), g.At(1, BitAt(n, k, q)))
      ensures !(0 <= q < n) ==> m[r][k] == Spike(r, k, 1)
    {
      PlacedEntry(n, q, g, r, k);
    }
    if 0 <= q < n {
      SetBitDigits(n, k, q, 0, q);
      SetBitDigits(n, k, q, 1, q);
      DotTwoSpikes(v, m, k, SetBit(n, k, q, 0), g.At(0, BitAt(n, k, q)), SetBit(n, k, q, 1), g.At(1, BitAt(n, k, q)));
    } else {
      DotOneSpike(v, m, k, k, 1);
    }
  }

  /**
    A single-qubit gate on qubit `q` mixes, for every index `k`, the two
    amplitudes whose indices agree with `k` off qubit `q`, weighted by column
    `bit_q(k)` of the gate. A target outside the register leaves the state as it was.
   */
  lemma GateAction(c: Circuit, g: Mat2, q: int)
    requires c.Valid()
    ensures 0 <= q < c.numQubits ==>
      forall k :: 0 <= k < |c.stateVector| ==>
        ApplyGate(c, g, q).stateVector[k] == GateOut(c.stateVector, c.numQubits, q, g, k)
    ensures !(0 <= q < c.numQubits) ==> ApplyGate(c, g, q) == c
  {
    var n := c.numQubits;
    var v := c.stateVector;
    forall k | 0 <= k < |v| {
      PlacedProduct(v, n, q, g, k);
    }
    if !(0 <= q < n) {
      assert ApplyGate(c, g, q).stateVector == v;
    }
  }

  /**
    `X(q)` moves the amplitude of every index `k` to `k` with qubit `q`
    negated, and nothing else; a target outside the register changes nothing.
   */
  lemma XAction(c: Circuit, q: int)
    requires c.Valid()
    ensures 0 <= q < c.numQubits ==>
      forall k :: 0 <= k < |c.stateVector| ==>
        X(c, q).stateVector[k] == c.stateVector[Flip(c.numQubits, k, q)]
    ensures !(0 <= q < c.numQubits) ==> X(c, q) == c
  {
    GateAction(c, PauliX, q);
    if 0 <= q < c.numQubits {
      forall k | 0 <= k < |c.stateVector|
        ensures X(c, q).stateVector[k] == c.stateVector[Flip(c.numQubits, k, q)]
      {
        PauliXOut(c.stateVector, c.numQubits, q, k);
      }
    }
  }

  /** Applying `X` twice to the same qubit restores the register exactly. */
  lemma XInvolution(c: Circuit, q: int)
    requires c.Valid()
    ensures X(X(c, q), q) == c
  {
    var c1 := X(c, q);
    XAction(c, q);
    XAction(c1, q);
    if 0 <= q < c.numQubits {
      var n := c.numQubits;
      forall k | 0 <= k < |c.stateVector|
        ensures X(c1, q).stateVector[k] == c.stateVector[k]
      {
        FlipInvolution(n, k, q);
      }
      assert X(c1, q).stateVector == c.stateVector;
    }
  }

  // ---------------------------------------------------------------------------
  // Controlled gates

  /**
    The controlled-gate engine of `CX`: `O1` folds `P0x0` at the control with
    the identity elsewhere, `O2` folds `P1x1` at the control, `g` at the target
    and the identity elsewhere; the state is right-multiplied by `O1 + O2`.
   */
  function ApplyControlled(c: Circuit, g: Mat2, ctrl: int, t: int): (r: Circuit)
    requires c.Valid()
    ensures r.Valid()
    ensures r.numQubits == c.numQubits && r.indexBin == c.indexBin
  {
    var n := c.numQubits;
    var o1 := Reduce(Placed(n, ctrl, Proj0));
    var o2 := Reduce(Controlled(n, ctrl, t, g));
    c.(stateVector := Dot(c.stateVector, MatAdd(o1, o2, Pow2(n))))
  }

  /** `CX(controlQubit, targetQubit)`; as in the source, the target defaults to qubit 1. */
  function CX(c: Circuit, ctrl: int, t: int := 1): (r: Circuit)
    requires c.Valid()
    ensures r.Valid()
    ensures r.numQubits == c.numQubits && r.indexBin == c.indexBin
  {
    ApplyControlled(c, PauliX, ctrl, t)
  }

  /** The `O1` part: keeps the amplitudes whose control qubit is 0, zeroes the rest. */
  lemma ControlZeroProduct(v: Vector, n: nat, ctrl: nat, k: nat)
    requires ctrl < n && |v| == Pow2(n) && k < Pow2(n)
    ensures Dot(v, Reduce(Placed(n, ctrl, Proj0)))[k] == if BitAt(n, k, ctrl) == 0 then v[k] else 0
  {
    PlacedProduct(v, n, ctrl, Proj0, k);
    ProjectZero(v, n, ctrl, k);
  }

  /** The `O2` part with the target out of range or on the control: `P1x1` alone. */
  lemma ControlOneProduct(v: Vector, n: nat, ctrl: nat, k: nat)
    requires ctrl < n && |v| == Pow2(n) && k < Pow2(n)
    ensures Dot(v, Reduce(Placed(n, ctrl, Proj1)))[k] == if BitAt(n, k, ctrl) == 1 then v[k] else 0
  {
    PlacedProduct(v, n, ctrl, Proj1, k);
    ProjectOne(v, n, ctrl, k);
  }

  /** The `O2` part with distinct control and target in range. */
  lemma ControlledProduct(v: Vector, n: nat, ctrl: nat, t: nat, g: Mat2, k: nat)
    requires ctrl < n && t < n && ctrl != t && |v| == Pow2(n) && k < Pow2(n)
    ensures Dot(v, Reduce(Controlled(n, ctrl, t, g)))[k]
      == if BitAt(n, k, ctrl) == 1 then GateOut(v, n, t, g, k) else 0
  {
    var m := Reduce(Controlled(n, ctrl, t, g));
    forall r | 0 <= r < |v|
      ensures m[r][k]
        == if BitAt(n, k, ctrl) == 1 then
             Spike(r, SetBit(n, k, t, 0), g.At(0, BitAt(n, k, t)))
             + Spike(r, SetBit(n, k, t, 1), g.At(1, BitAt(n, k, t)))
           else 0
    {
      ControlledEntry(n, ctrl, t, g, r, k);
    }
    if BitAt(n, k, ctrl) == 1 {
      SetBitDigits(n, k, t, 0, t);
      SetBitDigits(n, k, t, 1, t);
      DotTwoSpikes(v, m, k, SetBit(n, k, t, 0), g.At(0, BitAt(n, k, t)), SetBit(n, k, t, 1), g.At(1, BitAt(n, k, t)));
    } else {
      DotZeroColumn(v, m, k);
    }
  }

  /** The new state of a controlled gate is the sum of the `O1` and `O2` products. */
  lemma ControlledSplit(c: Circuit, g: Mat2, ctrl: int, t: int, k: nat)
    requires c.Valid() && k < |c.stateVector|
    ensures ApplyControlled(c, g, ctrl, t).stateVector[k]
      == Dot(c.stateVector, Reduce(Placed(c.numQubits, ctrl, Proj0)))[k]
       + Dot(c.stateVector, Reduce(Controlled(c.numQubits, ctrl, t, g)))[k]
  {
    var n := c.numQubits;
    DotAdd(c.stateVector, Reduce(Placed(n, ctrl, Proj0)), Reduce(Controlled(n, ctrl, t, g)));
  }

  /**
    What `O1 + O2` does to amplitude `k`, for every placement of control and
    target the source accepts without complaint:
    - both in range and distinct: amplitudes with control qubit 0 stay, those with
      control qubit 1 get `g` applied on the target;
    - control in range, target equal to it or out of range: `O1 + O2` is the
      identity (`P1x1` wins at the shared position);
    - control out of range: `O1` is the identity and `O2` is `g` on the target
      alone, so the result is the old amplitude plus the gate's output (or
      twice the old amplitude when the target is out of range too).
   */
  lemma ControlledAction(c: Circuit, g: Mat2, ctrl: int, t: int, k: nat)
    requires c.Valid() && k < |c.stateVector|
    ensures var n := c.numQubits;
            var v := c.stateVector;
            var w := ApplyControlled(c, g, ctrl, t).stateVector;
      && (0 <= ctrl < n && 0 <= t < n && ctrl != t ==>
           w[k] == if BitAt(n, k, ctrl) == 0 then v[k] else GateOut(v, n, t, g, k))
      && (0 <= ctrl < n && !(0 <= t < n && t != ctrl) ==> w[k] == v[k])
      && (!(0 <= ctrl < n) && 0 <= t < n ==> w[k] == v[k] + GateOut(v, n, t, g, k))
      && (!(0 <= ctrl < n) && !(0 <= t < n) ==> w[k] == 2 * v[k])
  {
    var n := c.numQubits;
    var v := c.stateVector;
    ControlledSplit(c, g, ctrl, t, k);
    if 0 <= ctrl < n {
      ControlZeroProduct(v, n, ctrl, k);
      if 0 <= t < n && t != ctrl {
        ControlledProduct(v, n, ctrl, t, g, k);
      } else {
        ControlledWithoutTarget(n, ctrl, t, g);
        ControlOneProduct(v, n, ctrl, k);
      }
    } else {
      PlacedProduct(v, n, ctrl, Proj0, k);
      ControlledWithoutControl(n, ctrl, t, g);
      PlacedProduct(v, n, t, g, k);
    }
  }

  /**
    CNOT truth table: an amplitude whose control qubit is 0 stays where it is;
    one whose control qubit is 1 is exchanged with the index whose target qubit
    is negated.
   */
  lemma CXAction(c: Circuit, ctrl: int, t: int)
    requires c.Valid() && 0 <= ctrl < c.numQubits && 0 <= t < c.numQubits && ctrl != t
    ensures forall k :: 0 <= k < |c.stateVector| ==>
      CX(c, ctrl, t).stateVector[k]
        == if BitAt(c.numQubits, k, ctrl) == 0 then c.stateVector[k]
           else c.stateVector[Flip(c.numQubits, k, t)]
  {
    forall k | 0 <= k < |c.stateVector|
      ensures CX(c, ctrl, t).stateVector[k]
        == if BitAt(c.numQubits, k, ctrl) == 0 then c.stateVector[k]
           else c.stateVector[Flip(c.numQubits, k, t)]
    {
      ControlledAction(c, PauliX, ctrl, t, k);
      PauliXOut(c.stateVector, c.numQubits, t, k);
    }
  }

  /** With the control in range and the target equal to it, `CX` leaves the register unchanged. */
  lemma CXSameQubit(c: Circuit, q: int)
    requires c.Valid() && 0 <= q < c.numQubits
    ensures CX(c, q, q) == c
  {
    forall k | 0 <= k < |c.stateVector| {
      ControlledAction(c, PauliX, q, q, k);
    }
    assert CX(c, q, q).stateVector == c.stateVector;
  }

  /**
    With the control out of range, `O1` is the identity and `O2` is `X` on the
    target, so `CX` adds each amplitude's flipped partner to it (or doubles
    every amplitude when the target is out of range too).
   */
  lemma CXControlOutOfRange(c: Circuit, ctrl: int, t: int)
    requires c.Valid() && !(0 <= ctrl < c.numQubits)
    ensures 0 <= t < c.numQubits ==>
      forall k :: 0 <= k < |c.stateVector| ==>
        CX(c, ctrl, t).stateVector[k] == c.stateVector[k] + c.stateVector[Flip(c.numQubits, k, t)]
    ensures !(0 <= t < c.numQubits) ==>
      forall k :: 0 <= k < |c.stateVector| ==> CX(c, ctrl, t).stateVector[k] == 2 * c.stateVector[k]
  {
    forall k | 0 <= k < |c.stateVector|
      ensures 0 <= t < c.numQubits ==>
        CX(c, ctrl, t).stateVector[k] == c.stateVector[k] + c.stateVector[Flip(c.numQubits, k, t)]
      ensures !(0 <= t < c.numQubits) ==> CX(c, ctrl, t).stateVector[k] == 2 * c.stateVector[k]
    {
      ControlledAction(c, PauliX, ctrl, t, k);
      if 0 <= t < c.numQubits {
        PauliXOut(c.stateVector, c.numQubits, t, k);
      }
    }
  }

  /** Applying the same `CX` twice restores the register exactly. */
  lemma CXInvolution(c: Circuit, ctrl: int, t: int)
    requires c.Valid() && 0 <= ctrl < c.numQubits && 0 <= t < c.numQubits && ctrl != t
    ensures CX(CX(c, ctrl, t), ctrl, t) == c
  {
    var n := c.numQubits;
    var c1 := CX(c, ctrl, t);
    CXAction(c, ctrl, t);
    CXAction(c1, ctrl, t);
    forall k | 0 <= k < |c.stateVector|
      ensures CX(c1, ctrl, t).stateVector[k] == c.stateVector[k]
    {
      if BitAt(n, k, ctrl) == 1 {
        FlipDigits(n, k, t, ctrl);
        FlipInvolution(n, k, t);
      }
    }
    assert CX(c1, ctrl, t).stateVector == c.stateVector;
  }

  /** A fresh two-qubit register holds `|00>`. */
  lemma InitTwoQubits()
    ensures Init(2).Success?
    ensures Init(2).value.numQubits == 2 && Init(2).value.stateVector == [1, 0, 0, 0]
  {
    var v := Init(2).value.stateVector;
    assert v[0] == 1 && v[1] == 0 && v[2] == 0 && v[3] == 0;
  }

  /** On two qubits `X(0)` moves amplitude `k + 2 (mod 4)` to `k`. */
  lemma XFirstOfTwoAt(c: Circuit, k: nat)
    requires c.Valid() && c.numQubits == 2 && k < 4
    ensures X(c, 0).stateVector[k] == c.stateVector[(k + 2) % 4]
  {
    XAction(c, 0);
    FlipFirstOfTwo(k);
  }

  /** On two qubits `X(0)` exchanges the amplitudes of `|0x>` and `|1x>`. */
  lemma XFirstOfTwo(c: Circuit)
    requires c.Valid() && c.numQubits == 2
    ensures var v := c.stateVector; X(c, 0).stateVector == [v[2], v[3], v[0], v[1]]
  {
    XFirstOfTwoAt(c, 0);
    XFirstOfTwoAt(c, 1);
    XFirstOfTwoAt(c, 2);
    XFirstOfTwoAt(c, 3);
  }

  /** On two qubits `CX(0, 1)` keeps amplitudes 0 and 1 and exchanges amplitudes 2 and 3. */
  lemma CXOfTwoAt(c: Circuit, k: nat)
    requires c.Valid() && c.numQubits == 2 && k < 4
    ensures CX(c, 0, 1).stateVector[k] == c.stateVector[if k < 2 then k else 5 - k]
  {
    CXAction(c, 0, 1);
    FlipFirstOfTwo(k);
    FlipSecondOfTwo(k);
  }

  /** On two qubits `CX(0, 1)` exchanges the amplitudes of `|10>` and `|11>` and keeps the rest. */
  lemma CXOfTwo(c: Circuit)
    requires c.Valid() && c.numQubits == 2
    ensures var v := c.stateVector; CX(c, 0, 1).stateVector == [v[0], v[1], v[3], v[2]]
  {
    CXOfTwoAt(c, 0);
    CXOfTwoAt(c, 1);
    CXOfTwoAt(c, 2);
    CXOfTwoAt(c, 3);
  }

  /** On two qubits, `X(0)` then `CX(0)`, whose target defaults to qubit 1, takes `|00>` to `|11>`: amplitude 1 at label "11". */
  lemma EntanglingExample()
    ensures Init(2).Success?
    ensures var c := CX(X(Init(2).value, 0), 0);
      && c.stateVector == [0, 0, 0, 1]
      && c.indexBin[3] == Spelled("11")
  {
    InitTwoQubits();
    var c0 := Init(2).value;
    XFirstOfTwo(c0);
    CXOfTwo(X(c0, 0));
    IndexBinTwoQubits();
  }

  /** On two qubits, qubit 0 is the high digit: `X(0)` exchanges `k` with `k + 2 (mod 4)`. */
  lemma FlipFirstOfTwo(k: nat)
    requires k < 4
    ensures BitAt(2, k, 0) == k / 2 && Flip(2, k, 0) == (k + 2) % 4
  {
    SetBitWeight(2, k, 0, 1 - BitAt(2, k, 0));
  }

  /** On two qubits, qubit 1 is the low digit: `X(1)` exchanges `k` with its neighbour. */
  lemma FlipSecondOfTwo(k: nat)
    requires k < 4
    ensures BitAt(2, k, 1) == k % 2 && Flip(2, k, 1) == if k % 2 == 0 then k + 1 else k - 1
  {
  }
}
