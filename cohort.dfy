/** The Markov cohort of stroke patients (cohort.py): the initial split of a
    population of stroke calls over the eight health states with its
    first-year cost, the yearly cycles that move mass into death until age
    100, the discounted yearly QALYs and costs, and their integration by the
    Simpson-style 1/3 correction.

    The life-table mortality is a function the model takes as an input; the
    yearly discount rate (e^0.03 - 1) is an input too. */
module Cohort {
  import opened Numeric
  import opened Constants
  import AisOutcomes

  /** Probability of death in one year at an age for a mortality hazard. */
  type Mortality = (Sex, int, real) -> real

  ghost predicate MortalityInRange(mortality: Mortality)
  {
    forall sex, age, hazard :: 0.0 <= mortality(sex, age, hazard) <= 1.0
  }

  // ---------------------------------------------------------------------
  // Initial distribution and first-year cost
  // ---------------------------------------------------------------------

  /** Shares of a population of one stroke call; the ischemic share is what
      is left after mimics and hemorrhagic strokes. */
  const POP_MIMIC: real := 1.0 * P_CALL_IS_MIMIC
  const POP_HEMORRHAGIC: real := 1.0 * P_CALL_IS_HEMORRHAGIC
  const POP_ISCHEMIC: real := 1.0 - POP_MIMIC - POP_HEMORRHAGIC

  lemma PopulationShares()
    ensures POP_MIMIC + POP_HEMORRHAGIC + POP_ISCHEMIC == 1.0
    ensures 0.0 < POP_MIMIC && 0.0 < POP_HEMORRHAGIC && 0.0 < POP_ISCHEMIC
  {
  }

  /** The mimics, all in the general population state. */
  function MimicStates(): (s: seq<real>)
    ensures |s| == NUMBER_OF_STATES
  {
    seq(NUMBER_OF_STATES, i requires 0 <= i < NUMBER_OF_STATES => if i == GEN_POP then POP_MIMIC else 0.0)
  }

  /** The ischemic and the hemorrhagic strokes share one mRS breakdown. */
  function IschemicStates(pGood: real, nihss: real): (s: seq<real>)
    ensures |s| == NUMBER_OF_STATES
  {
    Scale(POP_ISCHEMIC, BreakUpAisPatients(pGood, nihss))
  }

  function HemorrhagicStates(pGood: real, nihss: real): (s: seq<real>)
    ensures |s| == NUMBER_OF_STATES
  {
    Scale(POP_HEMORRHAGIC, BreakUpAisPatients(pGood, nihss))
  }

  /** The combined distribution at the start of the model. */
  function InitialStates(pGood: real, nihss: real): (s: seq<real>)
    ensures |s| == NUMBER_OF_STATES
  {
    Add(Add(MimicStates(), IschemicStates(pGood, nihss)), HemorrhagicStates(pGood, nihss))
  }

  /** All mimics are in the general population, and every stroke patient,
      ischemic or hemorrhagic, is spread by the same mRS breakdown. */
  lemma InitialStatesEntries(pGood: real, nihss: real)
    ensures InitialStates(pGood, nihss)[GEN_POP] == POP_MIMIC
    ensures forall i :: GEN_POP < i < NUMBER_OF_STATES ==>
      InitialStates(pGood, nihss)[i] == (POP_ISCHEMIC + POP_HEMORRHAGIC) * BreakUpAisPatients(pGood, nihss)[i]
  {
    CombinedEntries(BreakUpAisPatients(pGood, nihss));
  }

  lemma CombinedEntries(m: seq<real>)
    requires |m| == NUMBER_OF_STATES && m[GEN_POP] == 0.0
    ensures Add(Add(MimicStates(), Scale(POP_ISCHEMIC, m)), Scale(POP_HEMORRHAGIC, m))[GEN_POP] == POP_MIMIC
    ensures forall i :: GEN_POP < i < NUMBER_OF_STATES ==>
      Add(Add(MimicStates(), Scale(POP_ISCHEMIC, m)), Scale(POP_HEMORRHAGIC, m))[i]
      == (POP_ISCHEMIC + POP_HEMORRHAGIC) * m[i]
  {
  }

  /** The initial masses sum to one: mimics, ischemic and hemorrhagic
      strokes make up the whole population. */
  lemma InitialStatesSum(pGood: real, nihss: real)
    ensures Sum(InitialStates(pGood, nihss)) == 1.0
  {
    var m := BreakUpAisPatients(pGood, nihss);
    var mimic := MimicStates();
    SumOfEight(mimic);
    SumAdd(mimic, IschemicStates(pGood, nihss));
    SumAdd(Add(mimic, IschemicStates(pGood, nihss)), HemorrhagicStates(pGood, nihss));
    SumScale(POP_ISCHEMIC, m);
    SumScale(POP_HEMORRHAGIC, m);
  }

  /** The initial masses are all non-negative exactly when the mRS breakdown
      is, that is when `pGood` and the death fraction leave room for mRS 3-5. */
  lemma InitialStatesNonNegative(pGood: real, nihss: real)
    ensures (forall i :: 0 <= i < NUMBER_OF_STATES ==> 0.0 <= InitialStates(pGood, nihss)[i])
      <==> 0.0 <= pGood && pGood + DeathFraction(nihss) <= 1.0
  {
    var m := BreakUpAisPatients(pGood, nihss);
    CombinedNonNegative(m);
    assert InitialStates(pGood, nihss)
        == Add(Add(MimicStates(), Scale(POP_ISCHEMIC, m)), Scale(POP_HEMORRHAGIC, m));
    assert (forall i :: 0 <= i < |m| ==> 0.0 <= m[i])
       <==> 0.0 <= pGood && pGood + DeathFraction(nihss) <= 1.0;
  }

  lemma CombinedNonNegative(m: seq<real>)
    requires |m| == NUMBER_OF_STATES && m[GEN_POP] == 0.0
    ensures (forall i :: 0 <= i < NUMBER_OF_STATES ==>
               0.0 <= Add(Add(MimicStates(), Scale(POP_ISCHEMIC, m)), Scale(POP_HEMORRHAGIC, m))[i])
        <==> (forall i :: 0 <= i < |m| ==> 0.0 <= m[i])
  {
    var s := Add(Add(MimicStates(), Scale(POP_ISCHEMIC, m)), Scale(POP_HEMORRHAGIC, m));
    CombinedEntries(m);
    forall i | 0 <= i < NUMBER_OF_STATES
      ensures 0.0 <= s[i] <==> 0.0 <= m[i]
    {
      if i != GEN_POP {
        ScaleSign(POP_ISCHEMIC + POP_HEMORRHAGIC, m[i]);
      }
    }
  }

  lemma ScaleSign(f: real, x: real)
    requires 0.0 < f
    ensures 0.0 <= f * x <==> 0.0 <= x
  {
    if x < 0.0 {
      assert f * x < 0.0;
    }
  }

  /** First-year cost of the population with the ischemic outcomes `o`: the
      stay costs of both stroke vectors plus the treatments given to the
      ischemic share. */
  function FirstYearCost(o: AisOutcomes.Outcomes, nihss: real, c: UnitCosts): real
    requires c.WellFormed()
  {
    FirstYearCosts(HemorrhagicStates(o.pGood, nihss), IschemicStates(o.pGood, nihss), c)
    + c.ivt * o.pTpa * POP_ISCHEMIC
    + c.evt * o.pEvt * POP_ISCHEMIC
    + c.transfer * o.pTransfer * POP_ISCHEMIC
  }

  /** Two strategies with the same probability of a good outcome differ in
      first-year cost only by the treatments they give the ischemic share. */
  lemma FirstYearCostTreatments(o1: AisOutcomes.Outcomes, o2: AisOutcomes.Outcomes, nihss: real, c: UnitCosts)
    requires c.WellFormed() && o1.pGood == o2.pGood
    ensures FirstYearCost(o2, nihss, c) - FirstYearCost(o1, nihss, c)
         == POP_ISCHEMIC * (c.ivt * (o2.pTpa - o1.pTpa) + c.evt * (o2.pEvt - o1.pEvt)
                          + c.transfer * (o2.pTransfer - o1.pTransfer))
  {
  }

  // ---------------------------------------------------------------------
  // Markov cycles
  // ---------------------------------------------------------------------

  /** This year's probability of death of each living state. */
  function DeathProbabilities(mortality: Mortality, sex: Sex, age: int): (ps: seq<real>)
    ensures |ps| == DEATH
  {
    seq(DEATH, mrs requires 0 <= mrs < DEATH => mortality(sex, age, HazardMort(mrs)))
  }

  /** One cycle: each living state loses `ps[i]` of its mass and death
      receives all of it. */
  function Step(s: seq<real>, ps: seq<real>): (r: seq<real>)
    requires |s| == NUMBER_OF_STATES && |ps| == DEATH
    ensures |r| == NUMBER_OF_STATES
  {
    seq(NUMBER_OF_STATES, i requires 0 <= i < NUMBER_OF_STATES =>
      if i < DEATH then s[i] - s[i] * ps[i] else s[DEATH] + Dot(s, ps, DEATH))
  }

  /** The distribution at the start of every cycle from `age` to 100, and
      the final one. */
  function Trajectory(s: seq<real>, age: int, sex: Sex, mortality: Mortality): (t: seq<seq<real>>)
    requires |s| == NUMBER_OF_STATES
    ensures |t| == (if age < 100 then 100 - age else 0) + 1
    ensures t[0] == s
    ensures forall k :: 0 <= k < |t| ==> |t[k]| == NUMBER_OF_STATES
    decreases 100 - age
  {
    if age >= 100 then [s]
    else [s] + Trajectory(Step(s, DeathProbabilities(mortality, sex, age)), age + 1, sex, mortality)
  }

  lemma TrajectoryUnfold(s: seq<real>, age: int, sex: Sex, mortality: Mortality)
    requires |s| == NUMBER_OF_STATES && age < 100
    ensures Trajectory(s, age, sex, mortality)
         == [s] + Trajectory(Step(s, DeathProbabilities(mortality, sex, age)), age + 1, sex, mortality)
  {
  }

  lemma TrajectoryAtEnd(s: seq<real>, age: int, sex: Sex, mortality: Mortality)
    requires |s| == NUMBER_OF_STATES && 100 <= age
    ensures Trajectory(s, age, sex, mortality) == [s]
  {
  }

  /** The distribution part-way through a cycle, once the first `m` living
      states have handed over their deaths. */
  function PartialStep(s: seq<real>, ps: seq<real>, m: nat): (r: seq<real>)
    requires |s| == NUMBER_OF_STATES && |ps| == DEATH && m <= DEATH
    ensures |r| == NUMBER_OF_STATES
  {
    seq(NUMBER_OF_STATES, i requires 0 <= i < NUMBER_OF_STATES =>
      if i < m then s[i] - s[i] * ps[i]
      else if i < DEATH then s[i]
      else s[DEATH] + Dot(s, ps, m))
  }

  /** Handing over the deaths of state `m` advances the partial cycle. */
  lemma PartialStepNext(s: seq<real>, ps: seq<real>, m: nat, cur: seq<real>)
    requires |s| == NUMBER_OF_STATES && |ps| == DEATH && m < DEATH
    requires cur == PartialStep(s, ps, m)
    ensures cur[m] == s[m]
    ensures cur[DEATH := cur[DEATH] + cur[m] * ps[m]][m := cur[m] - cur[m] * ps[m]]
         == PartialStep(s, ps, m + 1)
  {
    var next := cur[DEATH := cur[DEATH] + cur[m] * ps[m]][m := cur[m] - cur[m] * ps[m]];
    assert cur[m] == s[m];
    assert next[m] == s[m] - s[m] * ps[m];
    assert Dot(s, ps, m + 1) == Dot(s, ps, m) + s[m] * ps[m];
    assert next[DEATH] == s[DEATH] + Dot(s, ps, m + 1);
    assert forall i :: 0 <= i < NUMBER_OF_STATES ==> next[i] == PartialStep(s, ps, m + 1)[i];
  }

  lemma PartialStepStart(s: seq<real>, ps: seq<real>)
    requires |s| == NUMBER_OF_STATES && |ps| == DEATH
    ensures PartialStep(s, ps, 0) == s
  {
    assert Dot(s, ps, 0) == 0.0;
    assert forall i :: 0 <= i < NUMBER_OF_STATES ==> PartialStep(s, ps, 0)[i] == s[i];
  }

  /** All seven living states handed over: the partial cycle is the cycle. */
  lemma PartialStepComplete(s: seq<real>, ps: seq<real>)
    requires |s| == NUMBER_OF_STATES && |ps| == DEATH
    ensures PartialStep(s, ps, DEATH) == Step(s, ps)
  {
    assert forall i :: 0 <= i < NUMBER_OF_STATES ==> PartialStep(s, ps, DEATH)[i] == Step(s, ps)[i];
  }

  function Last<T>(s: seq<T>): T
    requires |s| > 0
  {
    s[|s| - 1]
  }

  lemma DotOfSeven(s: seq<real>, ps: seq<real>)
    requires DEATH <= |s| && DEATH <= |ps|
    ensures Dot(s, ps, DEATH)
         == s[0] * ps[0] + s[1] * ps[1] + s[2] * ps[2] + s[3] * ps[3]
          + s[4] * ps[4] + s[5] * ps[5] + s[6] * ps[6]
  {
    assert Dot(s, ps, 1) == s[0] * ps[0];
    assert Dot(s, ps, 3) == Dot(s, ps, 1) + s[1] * ps[1] + s[2] * ps[2];
    assert Dot(s, ps, 5) == Dot(s, ps, 3) + s[3] * ps[3] + s[4] * ps[4];
    assert Dot(s, ps, 7) == Dot(s, ps, 5) + s[5] * ps[5] + s[6] * ps[6];
  }

  /** A cycle moves mass and never creates or destroys it. */
  lemma {:induction false} StepConservesMass(s: seq<real>, ps: seq<real>)
    requires |s| == NUMBER_OF_STATES && |ps| == DEATH
    ensures Sum(Step(s, ps)) == Sum(s)
  {
    SumOfEight(s);
    SumOfEight(Step(s, ps));
    DotOfSeven(s, ps);
  }

  /** With probabilities in [0,1] a cycle keeps every mass non-negative,
      never lowers death and never raises a living state. */
  lemma {:induction false} StepMonotone(s: seq<real>, ps: seq<real>)
    requires |s| == NUMBER_OF_STATES && |ps| == DEATH
    requires forall i :: 0 <= i < NUMBER_OF_STATES ==> 0.0 <= s[i]
    requires forall i :: 0 <= i < DEATH ==> 0.0 <= ps[i] <= 1.0
    ensures var r := Step(s, ps);
      && (forall i :: 0 <= i < NUMBER_OF_STATES ==> 0.0 <= r[i])
      && s[DEATH] <= r[DEATH]
      && (forall i :: 0 <= i < DEATH ==> r[i] <= s[i])
  {
    var r := Step(s, ps);
    forall i | 0 <= i < DEATH
      ensures 0.0 <= r[i] <= s[i]
    {
      assert r[i] == s[i] * (1.0 - ps[i]);
      MulNonNegative(s[i], ps[i]);
      MulNonNegative(s[i], 1.0 - ps[i]);
    }
    DotNonNegative(s, ps, DEATH);
  }

  /** Every recorded distribution holds the mass of the first. */
  lemma {:induction false} TrajectoryConservesMass(s: seq<real>, age: int, sex: Sex, mortality: Mortality)
    requires |s| == NUMBER_OF_STATES
    ensures forall k :: 0 <= k < |Trajectory(s, age, sex, mortality)| ==>
      Sum(Trajectory(s, age, sex, mortality)[k]) == Sum(s)
    decreases 100 - age
  {
    if age < 100 {
      var ps := DeathProbabilities(mortality, sex, age);
      var r := Step(s, ps);
      StepConservesMass(s, ps);
      TrajectoryConservesMass(r, age + 1, sex, mortality);
      var t := Trajectory(s, age, sex, mortality);
      var rest := Trajectory(r, age + 1, sex, mortality);
      assert t == [s] + rest;
      assert forall k :: 0 <= k < |rest| ==> Sum(rest[k]) == Sum(r);
      forall k | 1 <= k < |t|
        ensures Sum(t[k]) == Sum(s)
      {
        assert t[k] == rest[k - 1];
        assert Sum(rest[k - 1]) == Sum(r);
      }
    }
  }

  /** What one cycle does to the masses when its probabilities are in range:
      none becomes negative, death never decreases and no living state grows. */
  predicate CycleMonotone(before: seq<real>, after: seq<real>)
    requires |before| == NUMBER_OF_STATES && |after| == NUMBER_OF_STATES
  {
    && (forall i :: 0 <= i < NUMBER_OF_STATES ==> 0.0 <= after[i])
    && before[DEATH] <= after[DEATH]
    && (forall i :: 0 <= i < DEATH ==> after[i] <= before[i])
  }

  /** With mortality in [0,1] and a non-negative start, every cycle of the
      trajectory is monotone. */
  lemma {:induction false} TrajectoryMonotone(s: seq<real>, age: int, sex: Sex, mortality: Mortality)
    requires |s| == NUMBER_OF_STATES && MortalityInRange(mortality)
    requires forall i :: 0 <= i < NUMBER_OF_STATES ==> 0.0 <= s[i]
    ensures forall k :: 0 <= k < |Trajectory(s, age, sex, mortality)| - 1 ==>
      CycleMonotone(Trajectory(s, age, sex, mortality)[k], Trajectory(s, age, sex, mortality)[k + 1])
    decreases 100 - age
  {
    if age < 100 {
      var ps := DeathProbabilities(mortality, sex, age);
      StepMonotone(s, ps);
      var r := Step(s, ps);
      TrajectoryMonotone(r, age + 1, sex, mortality);
      var t := Trajectory(s, age, sex, mortality);
      var rest := Trajectory(r, age + 1, sex, mortality);
      assert t == [s] + rest;
      forall k | 0 <= k < |t| - 1
        ensures CycleMonotone(t[k], t[k + 1])
      {
        if k == 0 {
          assert t[1] == rest[0] == r;
        } else {
          assert t[k] == rest[k - 1] && t[k + 1] == rest[k];
        }
      }
    }
  }

  // ---------------------------------------------------------------------
  // Discounted series
  // ---------------------------------------------------------------------

  /** `x` discounted over `cycle` years at the yearly rate `rate`. */
  function Discounted(x: real, rate: real, cycle: nat): real
    requires 0.0 < rate
  {
    PowPositive(1.0 + rate, cycle);
    x / Pow(1.0 + rate, cycle)
  }

  lemma DiscountedSign(x: real, rate: real, cycle: nat)
    requires 0.0 < rate
    ensures 0.0 <= x ==> 0.0 <= Discounted(x, rate, cycle)
    ensures cycle == 0 ==> Discounted(x, rate, cycle) == x
    ensures x == 0.0 ==> Discounted(x, rate, cycle) == 0.0
  {
    PowPositive(1.0 + rate, cycle);
  }

  /** Utility-weighted mass of the first `n` living states. */
  function LiveUtility(s: seq<real>, n: nat): real
    requires n <= DEATH && n <= |s|
  {
    if n == 0 then 0.0 else LiveUtility(s, n - 1) + s[n - 1] * UtilitiesMrs(n - 1)
  }

  /** The utility-weighted mass lies between zero and the living mass. */
  lemma {:induction false} LiveUtilityBounds(s: seq<real>, n: nat)
    requires n <= DEATH && n <= |s|
    requires forall i :: 0 <= i < n ==> 0.0 <= s[i]
    ensures 0.0 <= LiveUtility(s, n) <= Sum(s[..n])
  {
    if n > 0 {
      LiveUtilityBounds(s, n - 1);
      assert s[..n][..n - 1] == s[..n - 1];
      var u := UtilitiesMrs(n - 1);
      assert 0.0 <= s[n - 1] * u <= s[n - 1];
    }
  }

  lemma {:induction false} LiveUtilityOfDead(s: seq<real>, n: nat)
    requires n <= DEATH && n <= |s|
    requires forall i :: 0 <= i < n ==> s[i] == 0.0
    ensures LiveUtility(s, n) == 0.0
  {
    if n > 0 {
      LiveUtilityOfDead(s, n - 1);
    }
  }

  predicate AllStates(states: seq<seq<real>>)
  {
    forall c :: 0 <= c < |states| ==> |states[c]| == NUMBER_OF_STATES
  }

  /** The discounted QALYs of every recorded distribution. */
  function QalySeries(states: seq<seq<real>>, rate: real): (q: seq<real>)
    requires AllStates(states) && 0.0 < rate
    ensures |q| == |states|
  {
    seq(|states|, c requires 0 <= c < |states| => Discounted(LiveUtility(states[c], DEATH), rate, c))
  }

  /** The QALYs of a cycle: zero when everyone has died, otherwise between
      zero and the discounted living mass. */
  lemma QalySeriesBounds(states: seq<seq<real>>, rate: real, c: nat)
    requires AllStates(states) && 0.0 < rate && c < |states|
    requires forall i :: 0 <= i < NUMBER_OF_STATES ==> 0.0 <= states[c][i]
    ensures 0.0 <= QalySeries(states, rate)[c] <= Discounted(Sum(states[c][..DEATH]), rate, c)
    ensures (forall i :: 0 <= i < DEATH ==> states[c][i] == 0.0) ==> QalySeries(states, rate)[c] == 0.0
  {
    var s := states[c];
    LiveUtilityBounds(s, DEATH);
    PowPositive(1.0 + rate, c);
    var d := Pow(1.0 + rate, c);
    DivideMonotone(LiveUtility(s, DEATH), Sum(s[..DEATH]), d);
    if forall i :: 0 <= i < DEATH ==> s[i] == 0.0 {
      LiveUtilityOfDead(s, DEATH);
    }
  }

  lemma DivideMonotone(x: real, y: real, d: real)
    requires 0.0 <= x <= y && 0.0 < d
    ensures 0.0 <= x / d <= y / d
  {
    assert x / d == x * (1.0 / d);
    assert y / d == y * (1.0 / d);
  }

  /** The discounted annual costs of every recorded distribution after the
      first, whose cost is the first-year cost. */
  function CostSeries(states: seq<seq<real>>, c: UnitCosts, rate: real): (r: seq<real>)
    requires AllStates(states) && c.WellFormed() && 0.0 < rate
    ensures |r| == if |states| == 0 then 0 else |states| - 1
  {
    if |states| == 0 then []
    else seq(|states| - 1, k requires 0 <= k < |states| - 1 =>
           Discounted(AnnualCost(states[k + 1], c), rate, k + 1))
  }

  /** The cost of a later cycle is its annual cost discounted by its number
      of years; once everyone has died it is the death cost of the mass. */
  lemma CostSeriesEntry(states: seq<seq<real>>, c: UnitCosts, rate: real, cycle: nat)
    requires AllStates(states) && c.WellFormed() && 0.0 < rate && 1 <= cycle < |states|
    ensures CostSeries(states, c, rate)[cycle - 1] == Discounted(AnnualCost(states[cycle], c), rate, cycle)
    ensures (forall i :: 0 <= i < DEATH ==> states[cycle][i] == 0.0) ==>
      CostSeries(states, c, rate)[cycle - 1]
      == Discounted(states[cycle][DEATH] * c.death, rate, cycle)
  {
    assert CostSeries(states, c, rate)[cycle - 1] == Discounted(AnnualCost(states[cycle], c), rate, cycle);
    if forall i :: 0 <= i < DEATH ==> states[cycle][i] == 0.0 {
      AnnualCostAllDead(states[cycle], c);
      assert AnnualCost(states[cycle], c) == states[cycle][DEATH] * c.death;
    }
  }

  // ---------------------------------------------------------------------
  // The Simpson-style correction
  // ---------------------------------------------------------------------

  /** The last index integrated: the horizon when given and inside the
      series, otherwise the last index of the series. */
  function EndIndex(length: nat, horizon: Option<int>): (e: int)
    requires 1 <= length
    ensures e <= length - 1
    ensures horizon.None? ==> e == length - 1
  {
    if horizon.Some? && horizon.value <= length - 1 then horizon.value else length - 1
  }

  /** Weight of index `i` when integrating up to `end`: 1/3 at the first and
      last index, 4/3 at odd and 2/3 at even indices between. */
  function Weight(i: nat, end: int): real
  {
    if i == 0 then 1.0 / 3.0
    else if i == end then 1.0 / 3.0
    else if i % 2 == 0 then 2.0 / 3.0
    else 4.0 / 3.0
  }

  /** Weighted sum of the first `n` values. */
  function WeightedSum(values: seq<real>, end: int, n: nat): real
    requires n <= |values|
  {
    if n == 0 then 0.0 else WeightedSum(values, end, n - 1) + values[n - 1] * Weight(n - 1, end)
  }

  /** The number of values the correction reads: indices 0 to `end`, and
      index 0 even when `end` is below 1. */
  function Terms(end: int): nat
  {
    if end >= 1 then end + 1 else 1
  }

  function SimpsonSum(values: seq<real>, end: int): real
    requires 1 <= |values| && end <= |values| - 1
  {
    WeightedSum(values, end, Terms(end))
  }

  /** The weights of the interior indices 1..k sum to k, plus 1/3 when k is
      odd (pairs 4/3 + 2/3). */
  lemma {:induction false} InteriorWeights(values: seq<real>, end: int, n: nat)
    requires 1 <= n <= end && n <= |values|
    requires forall i :: 0 <= i < |values| ==> values[i] == 1.0
    ensures WeightedSum(values, end, n) == 1.0 / 3.0 + (n - 1) as real + (if (n - 1) % 2 == 1 then 1.0 / 3.0 else 0.0)
  {
    if n > 1 {
      InteriorWeights(values, end, n - 1);
    }
  }

  /** The weights sum to `end` for an even last index and to `end - 1/3`
      for an odd one; with a single term they sum to 1/3. */
  lemma {:induction false} WeightsTotal(values: seq<real>, end: int)
    requires 1 <= |values| && end <= |values| - 1
    requires forall i :: 0 <= i < |values| ==> values[i] == 1.0
    ensures end >= 2 && end % 2 == 0 ==> SimpsonSum(values, end) == end as real
    ensures end >= 1 && end % 2 == 1 ==> SimpsonSum(values, end) == end as real - 1.0 / 3.0
    ensures end <= 0 ==> SimpsonSum(values, end) == 1.0 / 3.0
  {
    if end >= 1 {
      InteriorWeights(values, end, end);
    } else {
      assert WeightedSum(values, end, 1) == values[0] * Weight(0, end);
    }
  }

  lemma {:induction false} WeightedSumAdd(a: seq<real>, b: seq<real>, end: int, n: nat)
    requires |a| == |b| && n <= |a|
    ensures WeightedSum(Add(a, b), end, n) == WeightedSum(a, end, n) + WeightedSum(b, end, n)
  {
    if n > 0 {
      WeightedSumAdd(a, b, end, n - 1);
      var w := Weight(n - 1, end);
      assert Add(a, b)[n - 1] * w == a[n - 1] * w + b[n - 1] * w;
    }
  }

  lemma {:induction false} WeightedSumScale(a: seq<real>, k: real, end: int, n: nat)
    requires n <= |a|
    ensures WeightedSum(Scale(k, a), end, n) == k * WeightedSum(a, end, n)
  {
    if n > 0 {
      WeightedSumScale(a, k, end, n - 1);
      var w := Weight(n - 1, end);
      assert Scale(k, a)[n - 1] * w == k * (a[n - 1] * w);
    }
  }

  lemma {:induction false} WeightedSumPrefix(values: seq<real>, end: int, n: nat, m: nat)
    requires n <= m <= |values|
    ensures WeightedSum(values[..m], end, n) == WeightedSum(values, end, n)
  {
    if n > 0 {
      WeightedSumPrefix(values, end, n - 1, m);
    }
  }

  lemma {:induction false} WeightedSumNonNegative(values: seq<real>, end: int, n: nat)
    requires n <= |values|
    requires forall i :: 0 <= i < n ==> 0.0 <= values[i]
    ensures 0.0 <= WeightedSum(values, end, n)
  {
    if n > 0 {
      WeightedSumNonNegative(values, end, n - 1);
    }
  }

  /** The correction is linear, reads nothing past its last index, and is
      non-negative for a non-negative series. */
  lemma SimpsonSumProperties(a: seq<real>, b: seq<real>, k: real, end: int)
    requires |a| == |b| && 1 <= |a| && end <= |a| - 1
    ensures SimpsonSum(Add(a, b), end) == SimpsonSum(a, end) + SimpsonSum(b, end)
    ensures SimpsonSum(Scale(k, a), end) == k * SimpsonSum(a, end)
    ensures SimpsonSum(a[..Terms(end)], end) == SimpsonSum(a, end)
    ensures (forall i :: 0 <= i < |a| ==> 0.0 <= a[i]) ==> 0.0 <= SimpsonSum(a, end)
  {
    WeightedSumAdd(a, b, end, Terms(end));
    WeightedSumScale(a, k, end, Terms(end));
    WeightedSumPrefix(a, end, Terms(end), Terms(end));
    if forall i :: 0 <= i < |a| ==> 0.0 <= a[i] {
      WeightedSumNonNegative(a, end, Terms(end));
    }
  }

  /** The correction of a yearly series up to the horizon. */
  method SimpsonsOneThirdCorrection(yearlyValue: seq<real>, yearsHorizon: Option<int>) returns (sum: real)
    requires 1 <= |yearlyValue|
    ensures sum == SimpsonSum(yearlyValue, EndIndex(|yearlyValue|, yearsHorizon))
  {
    var multiplier := 1.0 / 3.0;
    sum := yearlyValue[0] * multiplier;
    var startIndex := 1;
    var endIndex := |yearlyValue| - 1;
    if yearsHorizon.Some? && yearsHorizon.value <= endIndex {
      endIndex := yearsHorizon.value;
    }
    var i := startIndex;
    while i < endIndex + 1
      invariant 1 <= i <= Terms(endIndex)
      invariant sum == WeightedSum(yearlyValue, endIndex, i)
    {
      if i == endIndex {
        multiplier := 1.0 / 3.0;
      } else if i % 2 == 0 {
        multiplier := 2.0 / 3.0;
      } else {
        multiplier := 4.0 / 3.0;
      }
      sum := sum + yearlyValue[i] * multiplier;
      i := i + 1;
    }
  }

  /** The discounted QALYs of every recorded distribution. */
  method GetQalys(states: seq<seq<real>>, rate: real) returns (qalys: seq<real>)
    requires AllStates(states) && 0.0 < rate
    ensures qalys == QalySeries(states, rate)
  {
    qalys := [];
    for cycle := 0 to |states|
      invariant qalys == QalySeries(states[..cycle], rate)
    {
      var state := states[cycle];
      var qaly := 0.0;
      for mrs := 0 to DEATH
        invariant qaly == LiveUtility(state, mrs)
      {
        qaly := qaly + state[mrs] * UtilitiesMrs(mrs);
      }
      qaly := Discounted(qaly, rate, cycle);
      assert QalySeries(states[..cycle + 1], rate) == QalySeries(states[..cycle], rate) + [qaly];
      qalys := qalys + [qaly];
    }
    assert states[..|states|] == states;
  }

  /** The values the cohort's class-level settings and the global tables
      hold during one run. */
  datatype Settings = Settings(
    startAge: int,
    sex: Sex,
    nihss: real,
    horizon: Option<int>,
    mortality: Mortality,
    unitCosts: UnitCosts,
    rate: real)
  {
    predicate Valid()
    {
      unitCosts.WellFormed() && 0.0 < rate
    }
  }

  /** The recorded distributions of a cohort with ischemic outcomes `o`. */
  function CohortStates(o: AisOutcomes.Outcomes, st: Settings): (t: seq<seq<real>>)
    ensures AllStates(t) && |t| >= 1
  {
    Trajectory(InitialStates(o.pGood, st.nihss), st.startAge, st.sex, st.mortality)
  }

  /** The integrated discounted QALYs and costs of a cohort. */
  function CohortQalys(o: AisOutcomes.Outcomes, st: Settings): real
    requires st.Valid()
  {
    var q := QalySeries(CohortStates(o, st), st.rate);
    SimpsonSum(q, EndIndex(|q|, st.horizon))
  }

  function CohortCosts(o: AisOutcomes.Outcomes, st: Settings): real
    requires st.Valid()
  {
    var costs := [FirstYearCost(o, st.nihss, st.unitCosts)] + CostSeries(CohortStates(o, st), st.unitCosts, st.rate);
    SimpsonSum(costs, EndIndex(|costs|, st.horizon))
  }

  /** One year of the cohort in place: each living state in turn hands the
      share that dies this year to the death state. */
  method RunCycle(current: array<real>, currentAge: int, sex: Sex, mortality: Mortality)
    requires current.Length == NUMBER_OF_STATES
    modifies current
    ensures current[..] == Step(old(current[..]), DeathProbabilities(mortality, sex, currentAge))
  {
    ghost var before := current[..];
    ghost var ps := DeathProbabilities(mortality, sex, currentAge);
    PartialStepStart(before, ps);
    for mrs := 0 to DEATH
      invariant current[..] == PartialStep(before, ps, mrs)
    {
      var pDead := mortality(sex, currentAge, HazardMort(mrs));
      assert pDead == ps[mrs];
      ghost var cur := current[..];
      PartialStepNext(before, ps, mrs, cur);
      var alive := current[mrs];
      current[DEATH] := current[DEATH] + alive * pDead;
      current[mrs] := alive - alive * pDead;
      ghost var next := cur[DEATH := cur[DEATH] + cur[mrs] * ps[mrs]][mrs := cur[mrs] - cur[mrs] * ps[mrs]];
      assert forall i :: 0 <= i < NUMBER_OF_STATES ==> current[i] == next[i];
      assert current[..] == next;
    }
    PartialStepComplete(before, ps);
  }

  class Population {
    var aisOutcomes: AisOutcomes.Outcomes
    var costsPerYear: seq<real>
    var simtype: string
    /** The list the first distribution was built in; the cycles update it in
        place, so it ends as the last distribution. */
    var statesInMarkov: array<real>
    var states: seq<seq<real>>
    var qalysPerYear: seq<real>
    var qalys: real
    var costs: real

    /** Runs the whole cohort pipeline for the outcomes `aisOutcomes`. */
    constructor (aisOutcomes: AisOutcomes.Outcomes, simtype: string, st: Settings)
      requires st.Valid()
      ensures this.aisOutcomes == aisOutcomes && this.simtype == simtype
      ensures fresh(statesInMarkov)
      ensures states == CohortStates(aisOutcomes, st)
      ensures statesInMarkov[..] == Last(states)
      ensures qalysPerYear == QalySeries(states, st.rate)
      ensures costsPerYear
           == [FirstYearCost(aisOutcomes, st.nihss, st.unitCosts)] + CostSeries(states, st.unitCosts, st.rate)
      ensures |costsPerYear| == |states| == |qalysPerYear|
      ensures qalys == CohortQalys(aisOutcomes, st)
      ensures costs == CohortCosts(aisOutcomes, st)
    {
      this.aisOutcomes := aisOutcomes;
      costsPerYear := [];
      this.simtype := simtype;
      statesInMarkov := new real[0];
      states := [];
      qalysPerYear := [];
      qalys := 0.0;
      costs := 0.0;
      new;
      statesInMarkov := BreakIntoStates(st.nihss, st.unitCosts);
      states := RunMarkov(statesInMarkov, st.startAge, st.sex, st.mortality);
      qalysPerYear := GetQalys(states, st.rate);
      GetCostsPerYear(states, st.unitCosts, st.rate);
      qalys := SimpsonsOneThirdCorrection(qalysPerYear, st.horizon);
      costs := SimpsonsOneThirdCorrection(costsPerYear, st.horizon);
    }

    /** Builds the initial distribution in a new list and records the
        first-year cost. */
    method BreakIntoStates(nihss: real, c: UnitCosts) returns (states: array<real>)
      requires c.WellFormed()
      modifies this
      ensures fresh(states)
      ensures states[..] == InitialStates(aisOutcomes.pGood, nihss)
      ensures costsPerYear == old(costsPerYear) + [FirstYearCost(aisOutcomes, nihss, c)]
      ensures aisOutcomes == old(aisOutcomes) && simtype == old(simtype)
      ensures statesInMarkov == old(statesInMarkov)
    {
      var statesIschemic := IschemicStates(aisOutcomes.pGood, nihss);
      var statesHemorrhagic := HemorrhagicStates(aisOutcomes.pGood, nihss);
      var baselineYearOneCosts := FirstYearCosts(statesHemorrhagic, statesIschemic, c);
      baselineYearOneCosts := baselineYearOneCosts + c.ivt * aisOutcomes.pTpa * POP_ISCHEMIC;
      baselineYearOneCosts := baselineYearOneCosts + c.evt * aisOutcomes.pEvt * POP_ISCHEMIC;
      baselineYearOneCosts := baselineYearOneCosts + c.transfer * aisOutcomes.pTransfer * POP_ISCHEMIC;
      assert baselineYearOneCosts == FirstYearCost(aisOutcomes, nihss, c);
      costsPerYear := costsPerYear + [baselineYearOneCosts];
      var initial := InitialStates(aisOutcomes.pGood, nihss);
      states := new real[NUMBER_OF_STATES](i requires 0 <= i < NUMBER_OF_STATES => initial[i]);
    }

    /** Runs the cycles from `startAge` to 100 on `current` in place and
        returns a copy of the distribution at the start of every cycle and
        the final one. */
    method RunMarkov(current: array<real>, startAge: int, sex: Sex, mortality: Mortality)
      returns (startOfCycles: seq<seq<real>>)
      requires current.Length == NUMBER_OF_STATES
      modifies current
      ensures startOfCycles == Trajectory(old(current[..]), startAge, sex, mortality)
      ensures current[..] == Last(startOfCycles)
    {
      startOfCycles := [];
      var currentAge := startAge;
      while currentAge < 100
        invariant startOfCycles + Trajectory(current[..], currentAge, sex, mortality)
               == Trajectory(old(current[..]), startAge, sex, mortality)
        decreases 100 - currentAge
      {
        var before := current[..];
        startOfCycles := startOfCycles + [before];
        RunCycle(current, currentAge, sex, mortality);
        TrajectoryUnfold(before, currentAge, sex, mortality);
        currentAge := currentAge + 1;
      }
      TrajectoryAtEnd(current[..], currentAge, sex, mortality);
      startOfCycles := startOfCycles + [current[..]];
    }

    /** Appends the discounted annual cost of every recorded distribution
        after the first. */
    method GetCostsPerYear(states: seq<seq<real>>, c: UnitCosts, rate: real)
      requires AllStates(states) && c.WellFormed() && 0.0 < rate
      modifies this
      ensures costsPerYear == old(costsPerYear) + CostSeries(states, c, rate)
      ensures aisOutcomes == old(aisOutcomes) && simtype == old(simtype)
      ensures statesInMarkov == old(statesInMarkov) && this.states == old(this.states)
      ensures qalysPerYear == old(qalysPerYear)
    {
      for cycle := 0 to |states|
        invariant costsPerYear == old(costsPerYear) + CostSeries(states[..cycle], c, rate)
        invariant aisOutcomes == old(aisOutcomes) && simtype == old(simtype)
        invariant statesInMarkov == old(statesInMarkov) && this.states == old(this.states)
        invariant qalysPerYear == old(qalysPerYear)
      {
        if cycle != 0 {
          var cost := AnnualCost(states[cycle], c);
          cost := Discounted(cost, rate, cycle);
          assert CostSeries(states[..cycle + 1], c, rate) == CostSeries(states[..cycle], c, rate) + [cost];
          costsPerYear := costsPerYear + [cost];
        }
      }
      assert states[..|states|] == states;
    }
  }
}
