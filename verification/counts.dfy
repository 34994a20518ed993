/**
  The multi-shot measurement tally `get_counts`.

  Every label whose amplitude is non-zero becomes an outcome with count 0; then
  each shot draws one of those outcomes and adds 1 to its count. The weighted
  random draw itself is not modelled: the shots are given as a sequence of
  positions in the candidate list, one per shot, so the tally is a function of
  the register and of the draws.
 */
module Counts {
  import opened Bits
  import opened Kron
  import opened Labels
  import opened Results
  import opened Simulator

  /** `random.choices` over an empty population: there is nothing to draw from. */
  datatype SampleError = EmptyPopulation

  predicate Distinct<T(==)>(s: seq<T>) {
    forall i, j :: 0 <= i < j < |s| ==> s[i] != s[j]
  }

  /**
    The keys of `count`, in insertion order: the labels whose amplitude is
    non-zero, in index order.
   */
  function Candidates(amps: Vector, labels: seq<Label>): (cs: seq<Label>)
    requires |amps| == |labels|
    ensures |cs| <= |labels|
    ensures forall i :: 0 <= i < |cs| ==> cs[i] in labels
  {
    if amps == [] then []
    else (if amps[0] != 0 then [labels[0]] else []) + Candidates(amps[1..], labels[1..])
  }

  /** A label is a candidate exactly when some index carries it with a non-zero amplitude. */
  lemma {:induction false} CandidatesMembership(amps: Vector, labels: seq<Label>, x: Label)
    requires |amps| == |labels|
    ensures x in Candidates(amps, labels) <==> exists k :: 0 <= k < |amps| && amps[k] != 0 && labels[k] == x
  {
    if amps != [] {
      CandidatesMembership(amps[1..], labels[1..], x);
      if exists k :: 0 <= k < |amps| && amps[k] != 0 && labels[k] == x {
        var k :| 0 <= k < |amps| && amps[k] != 0 && labels[k] == x;
        if k > 0 {
          assert amps[1..][k - 1] != 0 && labels[1..][k - 1] == x;
        }
      }
      if exists k :: 0 <= k < |amps| - 1 && amps[1..][k] != 0 && labels[1..][k] == x {
        var k :| 0 <= k < |amps| - 1 && amps[1..][k] != 0 && labels[1..][k] == x;
        assert amps[k + 1] != 0 && labels[k + 1] == x;
      }
    }
  }

  /** Distinct labels give distinct candidates: no outcome is listed twice. */
  lemma {:induction false} CandidatesDistinct(amps: Vector, labels: seq<Label>)
    requires |amps| == |labels| && Distinct(labels)
    ensures Distinct(Candidates(amps, labels))
  {
    if amps != [] {
      var rest := Candidates(amps[1..], labels[1..]);
      CandidatesDistinct(amps[1..], labels[1..]);
      CandidatesMembership(amps[1..], labels[1..], labels[0]);
      if amps[0] != 0 {
        assert labels[0] !in rest by {
          forall k | 0 <= k < |amps| - 1
            ensures labels[1..][k] != labels[0]
          {
            assert labels[k + 1] != labels[0];
          }
        }
      }
    }
  }

  /** The outcome each shot lands on. */
  function Drawn(cands: seq<Label>, draws: seq<nat>): (out: seq<Label>)
    requires forall i :: 0 <= i < |draws| ==> draws[i] < |cands|
    ensures |out| == |draws|
  {
    seq(|draws|, i requires 0 <= i < |draws| => cands[draws[i]])
  }

  /** `outcome` before the shots: every candidate with count 0. */
  function Seed(cands: seq<Label>): (m: map<Label, nat>)
    ensures m.Keys == set x | x in cands
    ensures forall x :: x in m ==> m[x] == 0
  {
    map x | x in cands :: 0
  }

  /** `outcome` after the shots: the seed plus one per shot for the outcome it drew. */
  function Tally(cands: seq<Label>, draws: seq<nat>): (m: map<Label, nat>)
    requires forall i :: 0 <= i < |draws| ==> draws[i] < |cands|
    ensures m.Keys == set x | x in cands
    decreases |draws|
  {
    if draws == [] then Seed(cands)
    else
      var m := Tally(cands, draws[..|draws| - 1]);
      var x := cands[draws[|draws| - 1]];
      m[x := m[x] + 1]
  }

  /** Each outcome's count is the number of shots that drew it. */
  lemma {:induction false} TallyCounts(cands: seq<Label>, draws: seq<nat>, x: Label)
    requires forall i :: 0 <= i < |draws| ==> draws[i] < |cands|
    requires x in cands
    ensures x in Tally(cands, draws)
    ensures Tally(cands, draws)[x] == multiset(Drawn(cands, draws))[x]
    decreases |draws|
  {
    if draws != [] {
      var pre := draws[..|draws| - 1];
      TallyCounts(cands, pre, x);
      assert Drawn(cands, draws) == Drawn(cands, pre) + [cands[draws[|draws| - 1]]];
    }
  }

  /** `Σ m[x]` over the labels of `xs`. */
  function SumOver(m: map<Label, nat>, xs: seq<Label>): (total: nat)
    requires forall i :: 0 <= i < |xs| ==> xs[i] in m
  {
    if xs == [] then 0 else SumOver(m, xs[..|xs| - 1]) + m[xs[|xs| - 1]]
  }

  /** Adding one to a key raises the sum over a duplicate-free list by one if the list holds the key. */
  lemma {:induction false} SumOverIncrement(m: map<Label, nat>, xs: seq<Label>, y: Label)
    requires forall i :: 0 <= i < |xs| ==> xs[i] in m
    requires y in m && Distinct(xs)
    ensures SumOver(m[y := m[y] + 1], xs) == SumOver(m, xs) + if y in xs then 1 else 0
  {
    if xs != [] {
      var pre := xs[..|xs| - 1];
      SumOverIncrement(m, pre, y);
      if y == xs[|xs| - 1] {
        assert y !in pre;
      } else {
        assert y in xs <==> y in pre;
      }
    }
  }

  lemma {:induction false} SumOverZero(m: map<Label, nat>, xs: seq<Label>)
    requires forall i :: 0 <= i < |xs| ==> xs[i] in m && m[xs[i]] == 0
    ensures SumOver(m, xs) == 0
  {
    if xs != [] {
      SumOverZero(m, xs[..|xs| - 1]);
    }
  }

  /** Over the candidate list, the counts add up to the number of shots. */
  lemma {:induction false} TallyTotal(cands: seq<Label>, draws: seq<nat>)
    requires forall i :: 0 <= i < |draws| ==> draws[i] < |cands|
    requires Distinct(cands)
    ensures forall i :: 0 <= i < |cands| ==> cands[i] in Tally(cands, draws)
    ensures SumOver(Tally(cands, draws), cands) == |draws|
    decreases |draws|
  {
    if draws == [] {
      SumOverZero(Seed(cands), cands);
    } else {
      var pre := draws[..|draws| - 1];
      TallyTotal(cands, pre);
      var y := cands[draws[|draws| - 1]];
      SumOverIncrement(Tally(cands, pre), cands, y);
    }
  }

  /** The labels of a register are pairwise distinct. */
  lemma IndexBinIsDistinct(n: nat)
    requires n >= 1
    ensures Distinct(IndexBin(n))
  {
    forall i, j | 0 <= i < j < Pow2(n)
      ensures IndexBin(n)[i] != IndexBin(n)[j]
    {
      IndexBinDistinct(n, i, j);
    }
  }

  /**
    `m` is the tally of `draws` over register `c`: its keys are exactly the labels
    with non-zero amplitude, each shot drew one of them, the counts add up to the
    number of shots, and each count is the number of shots that drew that label.
   */
  ghost predicate IsOutcome(c: Circuit, draws: seq<nat>, m: map<Label, nat>)
    requires c.Valid()
  {
    var cands := Candidates(c.stateVector, c.indexBin);
    && (forall x :: x in m <==> exists k :: 0 <= k < |c.stateVector| && c.stateVector[k] != 0 && c.indexBin[k] == x)
    && (forall i :: 0 <= i < |draws| ==> draws[i] < |cands|)
    && (forall i :: 0 <= i < |cands| ==> cands[i] in m)
    && SumOver(m, cands) == |draws|
    && (forall x :: x in m ==> m[x] == multiset(Drawn(cands, draws))[x])
  }

  /**
    `get_counts(num_shots)`, the `i`-th shot landing on candidate `draws[i]`.
    A non-positive shot count draws nothing. With shots to take and every
    amplitude zero, the draw has an empty population and fails.
   */
  function GetCounts(c: Circuit, numShots: int, draws: seq<nat>): (r: Result<map<Label, nat>, SampleError>)
    requires c.Valid()
    requires |draws| == if numShots > 0 then numShots else 0
    requires Candidates(c.stateVector, c.indexBin) != [] ==>
      forall i :: 0 <= i < |draws| ==> draws[i] < |Candidates(c.stateVector, c.indexBin)|
    ensures r.Failure? <==> numShots > 0 && forall k :: 0 <= k < |c.stateVector| ==> c.stateVector[k] == 0
    ensures r.Success? ==> IsOutcome(c, draws, r.value)
    ensures r.Success? && numShots <= 0 ==> forall x :: x in r.value ==> r.value[x] == 0
  {
    var cands := Candidates(c.stateVector, c.indexBin);
    NoCandidates(c);
    if |draws| > 0 && cands == [] then Failure(EmptyPopulation)
    else
      TallyIsOutcome(c, draws);
      Success(Tally(cands, draws))
  }

  /** There is no candidate exactly when every amplitude is zero. */
  lemma NoCandidates(c: Circuit)
    requires c.Valid()
    ensures Candidates(c.stateVector, c.indexBin) == [] <==> forall k :: 0 <= k < |c.stateVector| ==> c.stateVector[k] == 0
  {
    var v := c.stateVector;
    var cands := Candidates(v, c.indexBin);
    if cands != [] {
      CandidatesMembership(v, c.indexBin, cands[0]);
    } else {
      forall k | 0 <= k < |v|
        ensures v[k] == 0
      {
        CandidatesMembership(v, c.indexBin, c.indexBin[k]);
      }
    }
  }

  /** The tally's keys are exactly the labels of the non-zero amplitudes. */
  lemma TallyKeys(c: Circuit, draws: seq<nat>)
    requires c.Valid()
    requires forall i :: 0 <= i < |draws| ==> draws[i] < |Candidates(c.stateVector, c.indexBin)|
    ensures var m := Tally(Candidates(c.stateVector, c.indexBin), draws);
      forall x :: x in m <==> exists k :: 0 <= k < |c.stateVector| && c.stateVector[k] != 0 && c.indexBin[k] == x
  {
    var v := c.stateVector;
    var m := Tally(Candidates(v, c.indexBin), draws);
    forall x
      ensures x in m <==> exists k :: 0 <= k < |v| && v[k] != 0 && c.indexBin[k] == x
    {
      CandidatesMembership(v, c.indexBin, x);
    }
  }

  /** Every candidate is tallied and the counts add up to the number of draws. */
  lemma TallyCoversDraws(c: Circuit, draws: seq<nat>)
    requires c.Valid()
    requires forall i :: 0 <= i < |draws| ==> draws[i] < |Candidates(c.stateVector, c.indexBin)|
    ensures var cands := Candidates(c.stateVector, c.indexBin);
      var m := Tally(cands, draws);
      (forall i :: 0 <= i < |cands| ==> cands[i] in m) && SumOver(m, cands) == |draws|
  {
    IndexBinIsDistinct(c.numQubits);
    CandidatesDistinct(c.stateVector, c.indexBin);
    TallyTotal(Candidates(c.stateVector, c.indexBin), draws);
  }

  /** Each label's count is the number of draws that landed on it. */
  lemma TallyMatchesDraws(c: Circuit, draws: seq<nat>)
    requires c.Valid()
    requires forall i :: 0 <= i < |draws| ==> draws[i] < |Candidates(c.stateVector, c.indexBin)|
    ensures var cands := Candidates(c.stateVector, c.indexBin);
      var m := Tally(cands, draws);
      forall x :: x in m ==> m[x] == multiset(Drawn(cands, draws))[x]
  {
    var cands := Candidates(c.stateVector, c.indexBin);
    var m := Tally(cands, draws);
    forall x | x in m
      ensures m[x] == multiset(Drawn(cands, draws))[x]
    {
      TallyCounts(cands, draws, x);
    }
  }

  /** Tallying draws that all land on candidates gives an outcome of the register. */
  lemma TallyIsOutcome(c: Circuit, draws: seq<nat>)
    requires c.Valid()
    requires forall i :: 0 <= i < |draws| ==> draws[i] < |Candidates(c.stateVector, c.indexBin)|
    ensures IsOutcome(c, draws, Tally(Candidates(c.stateVector, c.indexBin), draws))
  {
    TallyKeys(c, draws);
    TallyCoversDraws(c, draws);
    TallyMatchesDraws(c, draws);
  }

  /** Only the last label of `[0, 0, 0, 1]` has a non-zero amplitude. */
  lemma LastOfFourCandidate(ls: seq<Label>)
    requires |ls| == 4
    ensures Candidates([0, 0, 0, 1], ls) == [ls[3]]
  {
    var v: Vector := [0, 0, 0, 1];
    assert Candidates(v[3..], ls[3..]) == [ls[3]] by {
      assert v[3..][1..] == [] && ls[3..][1..] == [];
    }
    assert Candidates(v[2..], ls[2..]) == Candidates(v[3..], ls[3..]) by {
      assert v[2..][1..] == v[3..] && ls[2..][1..] == ls[3..];
    }
    assert Candidates(v[1..], ls[1..]) == Candidates(v[2..], ls[2..]) by {
      assert v[1..][1..] == v[2..] && ls[1..][1..] == ls[2..];
    }
    assert Candidates(v, ls) == Candidates(v[1..], ls[1..]);
  }

  /** Three shots on a single candidate give it the count 3. */
  lemma ThreeShotsOnOne(x: Label)
    ensures Tally([x], [0, 0, 0]) == map[x := 3]
  {
    var ds: seq<nat> := [0, 0, 0];
    assert ds[..2] == [0, 0] && ds[..2][..1] == [0] && ds[..2][..1][..0] == [];
    assert Tally([x], []) == map[x := 0];
  }

  /** The only outcome of `|11>` is "11": three shots all land on it. */
  lemma BellCounts()
    ensures Init(2).Success?
    ensures var c := CX(X(Init(2).value, 0), 0);
      GetCounts(c, 3, [0, 0, 0]) == Success(map[Spelled("11") := 3])
  {
    EntanglingExample();
    var c := CX(X(Init(2).value, 0), 0);
    LastOfFourCandidate(c.indexBin);
    ThreeShotsOnOne(Spelled("11"));
  }
}
