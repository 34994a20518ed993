# QuaSimple in Dafny

QuaSimple is a dense state-vector quantum circuit simulator. A
`QuaSimpleCircuit` of `n` qubits holds:
- a state vector of `2^n` amplitudes, starting as `|0...0>`;
- the list `indexBin` of basis labels.

Every gate builds the full `2^n x 2^n` operator by folding one 2x2 matrix per
qubit position with the Kronecker product (`reduce(np.kron, ...)`). It then
replaces the state by the row-vector product `state · operator`.
`get_counts` tallies a number of measurement shots over the labels that have a
non-zero amplitude.

This project models:
- construction;
- the single-qubit gate engine, instantiated with `X`;
- the controlled-gate engine `CX`, which applies `O1 + O2`;
- the `get_counts` tally.

Modules:

- `Bits` covers basis-index arithmetic. Qubit 0 is the most significant digit of a basis index.
  - `BitAt` reads one qubit.
  - `SetBit` forces one qubit.
  - `Flip` negates one qubit.
- `Kron` covers:
  - `Mat2`, the 2x2 gate matrix;
  - the left fold `Reduce` of the Kronecker product, and `ReduceVec` for vectors;
  - the row-vector product `Dot`;
  - the operator sum `MatAdd`.
- `Layouts` covers the per-position gate lists the source folds.
  - `Placed(n, q, g)` has `g` at position `q` and the identity at every other position.
  - `Controlled(n, ctrl, t, g)` is the list of `O2`: `P1x1` at the control, `g` at the target unless that is the control, and the identity elsewhere.
- `PlacedFold` derives the columns of the folded single-gate operator from the position-product formula of the fold.
- `ControlledFold` derives the columns of the folded controlled term `O2` the same way.
- `Labels` covers `indexBin`: the binary digit tuples in `itertools.product` order, each joined into one label.
- `Simulator` covers the register (`Circuit`), `Init`, `X` and `CX`, and what each gate does to every amplitude.
- `Counts` covers `get_counts`.
- `Results` holds the success/failure result type.

Amplitudes are modelled as unbounded integers. Every matrix `X` and `CX` use has entries 0 and 1, so the amplitudes stay whole numbers. The source's floating-point arithmetic gives the same values as long as every amplitude stays below 2^53 in magnitude.

Behaviour of the code that the model follows:
- **Qubit indices are never checked.** A gate position that is not in `0 .. n-1` never equals any `i` in the list comprehension, so it places no gate.
  - `X` with such a target applies the identity.
  - `CX(q, q)` with `q` in range applies `O1 + O2 = I`, because `P1x1` takes precedence over `X` at the shared position.
  - `CX` with the control out of range applies `I + X_t`, where `X_t` is `X` on the target. It applies `2I` when the target is out of range too.
  - No call raises an error.
- **`targetQubit` of `CX` defaults to 1.** `CX(c, ctrl)` targets qubit 1.
- **A non-positive shot count draws nothing**, because `range(num_shots)` is then empty. The result is the all-zero tally over the candidate labels.
- **With shots to take and no non-zero amplitude**, the draw has an empty population and fails.
- **A register needs at least one qubit.** `reduce` over an empty list raises, so `Init(0)` fails.
- **One-qubit labels are bare digits.** With one qubit, the joining `reduce` sees 1-tuples and returns the element itself. The labels are then the integers `0` and `1` rather than the strings `"0"` and `"1"`. `Label` distinguishes `Bare` digits from `Spelled` strings.
- **`get_counts` prints its tally instead of returning it.** The model returns the tally.

## Model

| member | source | states |
|---|---|---|
| Bits.SetBitDigits | QuaSimple.py:46-47 | forcing qubit `q` of a basis index to `b` changes that qubit to `b` and leaves every other qubit's value as it was |
| Bits.SetBitTwice | QuaSimple.py:46-47 | forcing the same qubit twice is the same as forcing it once to the second value |
| Bits.SetBitWeight | QuaSimple.py:46-47 | qubit `q` carries the positional weight `2^(n-1-q)`, so qubit 0 is the most significant digit of the index |
| Bits.AgreeAll | QuaSimple.py:46-47 | two indices of a register that agree on every qubit are equal, and conversely |
| Bits.AgreeOffSetBit | QuaSimple.py:46-47 | `r` agrees with `c` on every qubit except `q` exactly when `r` is `c` with qubit `q` set to `r`'s value there |
| Bits.FlipInvolution | QuaSimple.py:42-47 | negating the same qubit of an index twice gives the index back |
| Bits.FlipDigits | QuaSimple.py:42-47 | `Flip` negates qubit `q` and keeps every other qubit |
| Kron.Reduce | QuaSimple.py:46-47 | the fold of `n` 2x2 gates is a square matrix of side `2^n` |
| Kron.FoldEntry | QuaSimple.py:46-47 | entry `(r, c)` of the folded operator is the product over positions `i` of `gate_i[bit_i(r)][bit_i(c)]` |
| Kron.Dot | QuaSimple.py:49 | the row-vector product `np.dot(state, O)` of `d` amplitudes with a `d x d` operator has `d` entries; the values are given by `DotTwoSpikes`, `DotOneSpike`, `DotZeroColumn` and `DotAdd` |
| Kron.ReduceVec | QuaSimple.py:28-29 | the fold of `n` 2-vectors has `2^n` entries |
| Kron.DotTwoSpikes | QuaSimple.py:49 | in the row-vector product, a column with entries `w0` at row `p0` and `w1` at row `p1` (zero elsewhere) yields `v[p0]*w0 + v[p1]*w1` |
| Kron.DotOneSpike | QuaSimple.py:49 | a column with a single non-zero entry `w` at row `p` yields `v[p]*w` |
| Kron.DotZeroColumn | QuaSimple.py:49 | an all-zero column yields amplitude 0 |
| Kron.DotAdd | QuaSimple.py:163-165 | `v·(O1 + O2) = v·O1 + v·O2`, entry by entry |
| PlacedFold.PlacedProductUpTo | QuaSimple.py:46-47 | over the first `k` positions, the single-gate layout's product is zero unless `r` and `c` agree off qubit `q`, and is then the gate's entry at qubit `q` (or 1 when `q` is not among them) |
| PlacedFold.PlacedFullProduct | QuaSimple.py:46-47 | over all positions that product is the gate's column `bit_q(c)` at the two rows that agree with `c` off qubit `q`, or the identity's entry when `q` is out of range |
| PlacedFold.PlacedEntry | QuaSimple.py:46-47 | with `q` in range, column `c` of the single-gate operator holds column `bit_q(c)` of the gate at the two rows that agree with `c` off qubit `q`, and zeros elsewhere; with `q` out of range the operator is the identity |
| ControlledFold.ControlledProductUpTo | QuaSimple.py:160-161 | over the first `k` positions, the controlled layout's product equals the single-gate layout's, except that it is zero once the control position is passed with qubit `ctrl` of the column at 0 |
| ControlledFold.ControlledEntry | QuaSimple.py:160-161 | with distinct control and target in range, column `c` of `O2` is zero when qubit `ctrl` of `c` is 0; otherwise it holds `g`'s column `bit_t(c)` at the two rows that agree with `c` off qubit `t` |
| Labels.ExtendAt | QuaSimple.py:32-33 | one more round of `itertools.product` makes tuple `k` equal to tuple `k/2` followed by digit `k%2` (the last position varies fastest) |
| Labels.ProductDigits | QuaSimple.py:32-33 | tuple `k` of `itertools.product([0,1], repeat=n)` has `n` digits, and digit `i` is the value of qubit `i` in basis index `k` |
| Labels.ProductValue | QuaSimple.py:32-33 | tuple `k` of the product read as a binary number is `k` |
| Labels.JoinSpells | QuaSimple.py:32 | the joining `reduce` turns a tuple of two or more digits into its string of digit characters and leaves a 1-tuple as the bare digit |
| Labels.JoinInjective | QuaSimple.py:32 | different digit tuples of one length join into different labels |
| Labels.IndexBin | QuaSimple.py:32-33 | `indexBin` has `2^n` labels |
| Labels.IndexBinSpelling | QuaSimple.py:32-33 | for two or more qubits, label `k` is an `n`-character string whose character `i` is the value of qubit `i` in `k` |
| Labels.IndexBinOneQubit | QuaSimple.py:32-33 | a one-qubit register's labels are the bare digits 0 and 1 |
| Labels.IndexBinTwoQubits | QuaSimple.py:32-33 | a two-qubit register's labels are "00", "01", "10", "11" in index order |
| Labels.IndexBinDistinct | QuaSimple.py:32-33 | different basis indices carry different labels |
| Simulator.ZeroState | QuaSimple.py:25-29 | the Kronecker fold of `n` copies of `[1, 0]` has 1 at index 0 and 0 everywhere else |
| Simulator.Init | QuaSimple.py:15-33 | construction succeeds exactly for `numQubits >= 1`; the register then has `2^n` amplitudes, amplitude 1 at index 0 and 0 elsewhere, and the `indexBin` labels |
| Simulator.ApplyGate | QuaSimple.py:46-49 | a gate call keeps the qubit count, the labels and the state length `2^n` |
| Simulator.ProjectZero | QuaSimple.py:141-144 | `P0x0` on a qubit keeps amplitude `k` when that qubit of `k` is 0 and zeroes it otherwise |
| Simulator.ProjectOne | QuaSimple.py:146-149 | `P1x1` on a qubit keeps amplitude `k` when that qubit of `k` is 1 and zeroes it otherwise |
| Simulator.PlacedProduct | QuaSimple.py:46-49 | new amplitude `k` after the single-gate operator on an in-range qubit mixes the two amplitudes that agree with `k` off that qubit; an out-of-range qubit leaves amplitude `k` as it was |
| Simulator.GateAction | QuaSimple.py:46-49 | a single-qubit gate on `q` gives every amplitude `k` the mix of the two amplitudes that agree with `k` off qubit `q`, weighted by column `bit_q(k)` of the gate; with `q` out of range the register is unchanged |
| Simulator.X | QuaSimple.py:35-49 | `X(qubit)` keeps the qubit count, the labels and the state length `2^n`; `XAction` gives the values |
| Simulator.XAction | QuaSimple.py:35-49 | `X(q)` gives index `k` the old amplitude of `k` with qubit `q` negated; with `q` out of range the register is unchanged |
| Simulator.XInvolution | QuaSimple.py:35-49 | applying `X(q)` twice restores the register exactly, for every `q` |
| Simulator.ControlZeroProduct | QuaSimple.py:157-158 | `state · O1` keeps the amplitudes whose control qubit is 0 and zeroes the rest |
| Simulator.ControlOneProduct | QuaSimple.py:160-161 | with the target out of range or equal to the control, `state · O2` keeps the amplitudes whose control qubit is 1 and zeroes the rest |
| Simulator.ControlledProduct | QuaSimple.py:160-161 | with distinct control and target in range, `state · O2` is zero where the control qubit is 0 and is the gate's output on the target where it is 1 |
| Simulator.ControlledSplit | QuaSimple.py:163-165 | the controlled gate's new state is the sum of `state · O1` and `state · O2` |
| Simulator.ApplyControlled | QuaSimple.py:157-165 | the controlled gate, the state right-multiplied by `O1 + O2`, keeps the qubit count, the labels and the state length `2^n`; `ControlledAction` gives the values |
| Simulator.ControlledAction | QuaSimple.py:157-165 | for every placement of control and target, the new amplitude `k`: kept or gate-applied by the control bit (distinct, in range); unchanged (target missing or equal to the control); old plus gate output, or doubled (control out of range) |
| Simulator.CX | QuaSimple.py:132-165 | `CX(controlQubit, targetQubit=1)` keeps the qubit count, the labels and the state length `2^n`; `CXAction`, `CXSameQubit` and `CXControlOutOfRange` give the values |
| Simulator.CXAction | QuaSimple.py:132-165 | CNOT truth table: an amplitude whose control qubit is 0 stays; one whose control qubit is 1 is exchanged with the index whose target qubit is negated |
| Simulator.CXSameQubit | QuaSimple.py:157-165 | `CX(q, q)` with `q` in range leaves the register unchanged |
| Simulator.CXControlOutOfRange | QuaSimple.py:157-165 | with the control out of range, `CX` adds each amplitude's target-flipped partner to it, or doubles every amplitude when the target is out of range too |
| Simulator.CXInvolution | QuaSimple.py:132-165 | applying the same in-range `CX` twice restores the register exactly |
| Simulator.InitTwoQubits | QuaSimple.py:25-29 | a fresh two-qubit register is `[1, 0, 0, 0]` |
| Simulator.XFirstOfTwo | QuaSimple.py:35-49 | on two qubits, `X(0)` exchanges the amplitudes of `|0x>` and `|1x>` |
| Simulator.CXOfTwo | QuaSimple.py:132-165 | on two qubits, `CX(0, 1)` exchanges the amplitudes of `|10>` and `|11>` and keeps the rest |
| Simulator.EntanglingExample | QuaSimple.py:15-165 | on a fresh two-qubit register, `X(0)` then `CX(0, 1)` gives `[0, 0, 0, 1]`, amplitude 1 at label "11" |
| Counts.Candidates | QuaSimple.py:181-184 | the keys of the tally, in index order, are at most as many as the labels and are all labels of the register; `CandidatesMembership` says which |
| Counts.CandidatesMembership | QuaSimple.py:181-184 | a label is a key of the tally exactly when some index carries it with a non-zero amplitude |
| Counts.CandidatesDistinct | QuaSimple.py:181-184 | with distinct labels, no candidate appears twice |
| Counts.Tally | QuaSimple.py:187-189 | the shots never add or remove keys: the keys stay exactly the candidates |
| Counts.TallyCounts | QuaSimple.py:187-189 | each candidate's count is the number of shots that drew it |
| Counts.SumOverIncrement | QuaSimple.py:188-189 | adding one to a key's count raises the total over a duplicate-free key list by one exactly when the list holds that key |
| Counts.TallyTotal | QuaSimple.py:187-189 | over the candidates, the counts add up to the number of shots |
| Counts.IndexBinIsDistinct | QuaSimple.py:32-33 | the labels of a register are pairwise distinct, so no key of the tally is overwritten |
| Counts.NoCandidates | QuaSimple.py:181-184 | there is no candidate exactly when every amplitude is zero |
| Counts.TallyIsOutcome | QuaSimple.py:179-189 | tallying draws that land on candidates gives keys = the non-zero labels, counts summing to the shots, and each count equal to that label's number of draws |
| Counts.GetCounts | QuaSimple.py:173-191 | fails exactly when there are shots to take and every amplitude is zero; otherwise the keys are exactly the labels with non-zero amplitude, the counts sum to the (non-negative part of the) shot count and match the draws, and zero or negative shots give all zeros |
| Counts.LastOfFourCandidate | QuaSimple.py:181-184 | the state `[0, 0, 0, 1]` has exactly one candidate, the last label |
| Counts.BellCounts | QuaSimple.py:173-191 | after `X(0)` and `CX(0, 1)` on two qubits, three shots give `{"11": 3}` |

## Left out

- `H`: its matrix has the irrational entry `1/sqrt(2)`, and amplitudes are integers here. It uses the same engine as `X` (`ApplyGate`), so `GateAction` covers it for any integer matrix, but `H` itself is not modelled.
- `Y`, `Z`, `S`, `T`: the methods lack `self` and refer to undefined names (`o`, `i`, `s`), so calling them raises before any state change. They are not modelled. `Y`'s matrix is also `Z`'s.
- Complex amplitudes and floating-point arithmetic: not modelled, because every modelled matrix has entries 0 and 1.
- The constant `self.i = np.complex_(2)`, the number 2+0j, is never used and is not modelled. `np.complex_` no longer exists in NumPy 2.0, so there `__init__` raises on that line; the model follows NumPy 1.x.
- Simulator.CX: with the control out of range, `CX` adds each amplitude's target-flipped partner to it, or doubles it (see `CXControlOutOfRange`). Repeated calls make amplitudes grow without bound. The model's integers follow that growth exactly. The source's float64 amplitudes lose exactness above 2^53 and become `inf` after about 1024 doublings. The squared weights in `get_counts` become `inf` once an amplitude passes about 2^512. None of this rounding or overflow is modelled.
- The weighted draw of `random.choices` and the Born weights `amplitude ** 2`: randomness is replaced by the given sequence of candidate positions, one per shot.
- Counts.GetCounts: models a first `get_counts` call only, because `self.probabilities` accumulating across calls is not modelled. Every later call that has shots to take, after a call that found a candidate, passes `random.choices` more weights than population items. In the source that call raises `ValueError` on its first shot; the model's `GetCounts` succeeds there.
- `measure` and the printing in `get_counts`: output only.
- numpy shape details: the state is modelled as one flat vector. The source keeps a 1-D array until a gate whose fold includes an `np.matrix` (`X`, or `H`, on an in-range qubit) turns it into a 1xN matrix. `get_counts` indexes `stateVector[0, idx]`, which needs the matrix shape. In the source it therefore fails until such a gate has run. `X` or `H` with an out-of-range target folds only identities and does not qualify. Neither does a `CX` whose target is out of range or equal to the control.
- GetCounts: takes the draws as a parameter and requires each to be a position in the candidate list (when that list is non-empty). Which positions the random draw picks, and how often, is not stated.
- The default `num_shots=100` of `get_counts` is not a separate member. `GetCounts` takes the shot count explicitly.
- Error checks on qubit indices, gate shapes or shot counts: the code performs none. The model follows the code: it accepts every qubit index and treats a negative shot count as zero.
