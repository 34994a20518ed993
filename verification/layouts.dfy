/**
  The per-position gate lists the simulator folds, and the column formula of
  the folded controlled term.

  `Placed(n, q, g)` holds `g` at position `q` and the identity at every other
  position; every single-qubit gate folds it. `Controlled(n, ctrl, t, g)` holds
  `P1x1` at position `ctrl`, `g` at position `t` unless that is `ctrl`, and the
  identity elsewhere; it is the second term of the controlled gate. Qubit
  arguments are plain integers: a position outside `0 .. n-1` never equals
  any `i`, so it simply places no gate.
 */
module Layouts {
  import opened Bits
  import opened Kron

  const Identity := Mat2(1, 0, 0, 1)
  const PauliX := Mat2(0, 1, 1, 0)
  /** `P0x0`, the projector on a qubit being 0. */
  const Proj0 := Mat2(1, 0, 0, 0)
  /** `P1x1`, the projector on a qubit being 1. */
  const Proj1 := Mat2(0, 0, 0, 1)

  function Placed(n: nat, q: int, g: Mat2): (gs: seq<Mat2>)
    ensures |gs| == n
  {
    seq(n, i => if i == q then g else Identity)
  }

  function Controlled(n: nat, ctrl: int, t: int, g: Mat2): (gs: seq<Mat2>)
    ensures |gs| == n
  {
    seq(n, i => if i == ctrl then Proj1 else if i == t then g else Identity)
  }

  /** The controlled layout with the target out of range or equal to the control is `P1x1` alone. */
  lemma ControlledWithoutTarget(n: nat, ctrl: int, t: int, g: Mat2)
    requires !(0 <= t < n) || t == ctrl
    ensures Controlled(n, ctrl, t, g) == Placed(n, ctrl, Proj1)
  {
  }

  /** The controlled layout with the control out of range is the target gate alone. */
  lemma ControlledWithoutControl(n: nat, ctrl: int, t: int, g: Mat2)
    requires !(0 <= ctrl < n)
    ensures Controlled(n, ctrl, t, g) == Placed(n, t, g)
  {
  }

  /**
    Entry `(r, c)` of `O2` as a formula: zero unless qubit `ctrl` of `c` is 1,
    and then `g`'s column `bit_t(c)` at the two rows that agree with `c` off qubit `t`.
   */
  function ControlledColumn(n: nat, ctrl: nat, t: nat, g: Mat2, r: nat, c: nat): (e: int)
    requires ctrl < n && t < n
  {
    if BitAt(n, c, ctrl) == 1 then
      Spike(r, SetBit(n, c, t, 0), g.At(0, BitAt(n, c, t))) + Spike(r, SetBit(n, c, t, 1), g.At(1, BitAt(n, c, t)))
    else 0
  }
}
