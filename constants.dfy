/** Model constants of the stroke cost-effectiveness model (constants.py): the
    health states, severity conversions, the outcome breakdown by modified
    Rankin Scale (mRS), the mortality and utility tables, and the unit cost
    tables with their one-time inflation pass. */
module Constants {
  import opened Numeric
  import Inflation

  datatype Sex = Male | Female

  // Health states, used as indices into every per-state vector.
  const GEN_POP: nat := 0
  const MRS_0: nat := 1
  const MRS_1: nat := 2
  const MRS_2: nat := 3
  const MRS_3: nat := 4
  const MRS_4: nat := 5
  const MRS_5: nat := 6
  const MRS_6: nat := 7
  /** Death is mRS 6, the last and absorbing state. */
  const DEATH: nat := MRS_6
  const NUMBER_OF_STATES: nat := 8

  /** Minutes from symptom onset after which thrombolysis (tPA) is not given. */
  const TIME_LIMIT_TPA: real := 270.0
  /** Minutes from symptom onset after which thrombectomy (EVT) is not done. */
  const TIME_LIMIT_EVT: real := 360.0

  /** The process-wide treatment delays (minutes); the transfer-to-EVT delay
      is door-to-intra-arterial minus door-to-needle at the primary center. */
  datatype Times = Times(
    doorNeedlePrimary: real,
    doorNeedleComprehensive: real,
    doorToIntraArterial: real,
    transferToIntraArterial: real)

  /** The delays derived from three drawn or base-case door times. */
  function TimesFrom(doorNeedlePrimary: real, doorNeedleComprehensive: real,
                     doorToIntraArterial: real): (t: Times)
    ensures t.doorNeedlePrimary + t.transferToIntraArterial == t.doorToIntraArterial
    ensures t.doorNeedlePrimary == doorNeedlePrimary
    ensures t.doorNeedleComprehensive == doorNeedleComprehensive
    ensures t.doorToIntraArterial == doorToIntraArterial
  {
    Times(doorNeedlePrimary, doorNeedleComprehensive, doorToIntraArterial,
          doorToIntraArterial - doorNeedlePrimary)
  }

  /** The base-case (median) door times. */
  function BaseCaseTimes(): (t: Times)
    ensures t.transferToIntraArterial == 84.0
  {
    TimesFrom(61.0, 52.0, 145.0)
  }

  // ---------------------------------------------------------------------
  // Severity scores
  // ---------------------------------------------------------------------

  /** NIHSS from RACE by linear regression, except that RACE 0 maps to 1. */
  function RaceToNihss(race: real): real
  {
    if race == 0.0 then 1.0 else -0.39 + 2.39 * race
  }

  /** RACE from NIHSS by the inverse regression, except that NIHSS 1 maps to 0. */
  function NihssToRace(nihss: real): real
  {
    if nihss == 1.0 then 0.0 else (nihss + 0.39) / 2.39
  }

  /** The one RACE value other than 0 whose regression NIHSS is exactly 1. */
  const RACE_MAPPED_TO_ONE: real := 1.39 / 2.39

  /** Converting RACE to NIHSS and back gives the same RACE, except for the
      nonzero RACE whose regression NIHSS is 1, which comes back as 0. */
  lemma RaceRoundTrip(race: real)
    ensures NihssToRace(RaceToNihss(race)) == race <==> race != RACE_MAPPED_TO_ONE
    ensures race == RACE_MAPPED_TO_ONE ==> NihssToRace(RaceToNihss(race)) == 0.0
  {
    if race != 0.0 && race != RACE_MAPPED_TO_ONE {
      assert -0.39 + 2.39 * race != 1.0;
    }
  }

  /** Converting NIHSS to RACE and back gives the same NIHSS, except for
      NIHSS -0.39, whose regression RACE is 0, which comes back as 1. */
  lemma NihssRoundTrip(nihss: real)
    ensures RaceToNihss(NihssToRace(nihss)) == nihss <==> nihss != -0.39
  {
  }

  /** Where to take a patient when neither center can treat in time: a RACE
      of 5 or more suggests a large vessel occlusion. */
  function NoTxWhereToGo(race: real): (location: string)
    ensures location == "Comprehensive" <==> race >= 5.0
    ensures location == "Primary" <==> race < 5.0
  {
    if race >= 5.0 then "Comprehensive" else "Primary"
  }

  // ---------------------------------------------------------------------
  // Population mix and outcome breakdown
  // ---------------------------------------------------------------------

  /** Share of stroke calls that are mimics (including TIA). */
  const P_CALL_IS_MIMIC: real := (1635.0 + 191.0) / 2402.0
  /** Share of stroke calls that are hemorrhagic (ICH and SAH). */
  const P_CALL_IS_HEMORRHAGIC: real := (16.0 + 85.0) / 2402.0

  /** Fraction of stroke patients who die, stepped by NIHSS. */
  function DeathFraction(nihss: real): (p: real)
    ensures 0.0 < p < 1.0
  {
    if nihss < 7.0 then 0.042
    else if nihss < 13.0 then 0.139
    else if nihss < 21.0 then 0.316
    else 0.535
  }

  /** The death fraction never decreases as severity increases. */
  lemma DeathFractionMonotone(a: real, b: real)
    requires a <= b
    ensures DeathFraction(a) <= DeathFraction(b)
  {
  }

  /** Distribution over the eight states of stroke patients with a good
      outcome (mRS 0-2) of probability `pGood`; the rest is split between
      death, by severity, and mRS 3-5. */
  function BreakUpAisPatients(pGood: real, nihss: real): (r: seq<real>)
    ensures |r| == NUMBER_OF_STATES
    ensures r[GEN_POP] == 0.0 && r[DEATH] == DeathFraction(nihss)
    ensures r[MRS_0] + r[MRS_1] + r[MRS_2] == pGood
    ensures Sum(r) == 1.0
    ensures (forall i :: 0 <= i < |r| ==> 0.0 <= r[i])
            <==> 0.0 <= pGood && pGood + DeathFraction(nihss) <= 1.0
  {
    var mrs6 := DeathFraction(nihss);
    var mrs0 := 0.205627706 * pGood;
    var mrs1 := 0.341991342 * pGood;
    var mrs2 := pGood - mrs1 - mrs0;
    var bad := 1.0 - pGood - mrs6;
    var r := [0.0, mrs0, mrs1, mrs2, 0.35678392 * bad, 0.432160804 * bad,
              0.211055276 * bad, mrs6];
    SumOfEight(r);
    r
  }

  lemma SumOfEight(s: seq<real>)
    requires |s| == 8
    ensures Sum(s) == s[0] + s[1] + s[2] + s[3] + s[4] + s[5] + s[6] + s[7]
  {
    assert s[..8] == s;
    assert s[..8][..7] == s[..7];
    assert Sum(s[..8]) == Sum(s[..7]) + s[7];
    assert s[..7][..6] == s[..6];
    assert Sum(s[..7]) == Sum(s[..6]) + s[6];
    assert s[..6][..5] == s[..5];
    assert Sum(s[..6]) == Sum(s[..5]) + s[5];
    assert s[..5][..4] == s[..4];
    assert Sum(s[..5]) == Sum(s[..4]) + s[4];
    assert s[..4][..3] == s[..3];
    assert Sum(s[..4]) == Sum(s[..3]) + s[3];
    assert s[..3][..2] == s[..2];
    assert Sum(s[..3]) == Sum(s[..2]) + s[2];
    assert s[..2][..1] == s[..1];
    assert Sum(s[..2]) == Sum(s[..1]) + s[1];
    assert s[..1][..0] == s[..0];
    assert Sum(s[..1]) == Sum(s[..0]) + s[0];
  }

  // ---------------------------------------------------------------------
  // Per-state tables (GEN_POP to mRS 5; death has no entry)
  // ---------------------------------------------------------------------

  /** Mortality hazard ratio of each living state relative to the general
      population. */
  const HAZARDS_MORTALITY: seq<real> := [1.0, 1.53, 1.52, 2.17, 3.18, 4.55, 6.55]

  /** Utility (quality-of-life weight) of each living state. */
  const UTILITIES: seq<real> := [1.0, 1.0, 0.84, 0.78, 0.71, 0.44, 0.18]

  function HazardMort(mrs: nat): (h: real)
    requires mrs < DEATH
    ensures 1.0 <= h
  {
    HAZARDS_MORTALITY[mrs]
  }

  function UtilitiesMrs(mrs: nat): (u: real)
    requires mrs < DEATH
    ensures 0.0 <= u <= 1.0
    ensures u == 1.0 <==> mrs <= MRS_0
  {
    UTILITIES[mrs]
  }

  // ---------------------------------------------------------------------
  // Costs
  // ---------------------------------------------------------------------

  // The currency year of each published cost.
  const ISCHEMIC_COST_YEAR: int := 2014
  const ICH_COST_YEAR: int := 2008
  const ANNUAL_COST_YEAR: int := 2014
  const DEATH_COST_YEAR: int := 2008
  const IVT_COST_YEAR: int := 2014
  const EVT_COST_YEAR: int := 2014
  const TRANSFER_COST_YEAR: int := 2010

  /** The unit costs in force at one moment: 90-day costs after an ischemic
      stroke and after an intracerebral hemorrhage (ICH), annual costs per
      living state, and the one-off costs of death, thrombolysis (IVT),
      thrombectomy (EVT) and transfer. */
  datatype UnitCosts = UnitCosts(
    days90Ischemic: seq<real>,
    days90Ich: seq<real>,
    annual: seq<real>,
    death: real,
    ivt: real,
    evt: real,
    transfer: real)
  {
    predicate WellFormed()
    {
      |days90Ischemic| == DEATH && |days90Ich| == DEATH && |annual| == DEATH
    }
  }

  /** The cost tables as published, each in its own currency year. */
  class Costs {
    var days90Ischemic: seq<real>
    var days90Ich: seq<real>
    var annual: seq<real>
    var death: real
    var ivt: real
    var evt: real
    var transfer: real

    predicate Valid()
      reads this
    {
      |days90Ischemic| == DEATH && |days90Ich| == DEATH && |annual| == DEATH
    }

    /** The tables as a value, for the computations that read them. */
    function Current(): (c: UnitCosts)
      reads this
      requires Valid()
      ensures c.WellFormed()
    {
      UnitCosts(days90Ischemic, days90Ich, annual, death, ivt, evt, transfer)
    }

    constructor ()
      ensures Valid()
      ensures days90Ischemic == [0.0, 6302.0, 9448.0, 14918.0, 26218.0, 32502.0, 26071.0]
      ensures days90Ich == [0.0, 9500.0, 15500.0, 18700.0, 27400.0, 27300.0, 27300.0]
      ensures annual == [0.0, 2921.0, 3905.0, 6501.0, 16922.0, 42335.0, 39723.0]
      ensures death == 8100.0 && ivt == 13419.0 && evt == 6400.0 && transfer == 763.0
    {
      days90Ischemic := [0.0, 6302.0, 9448.0, 14918.0, 26218.0, 32502.0, 26071.0];
      days90Ich := [0.0, 9500.0, 15500.0, 18700.0, 27400.0, 27300.0, 27300.0];
      annual := [0.0, 2921.0, 3905.0, 6501.0, 16922.0, 42335.0, 39723.0];
      death := 8100.0;
      ivt := 13419.0;
      evt := 6400.0;
      transfer := 763.0;
    }

    /** Rescales every cost in place from its own currency year to
        `targetYear`. Every table keeps its states; a zero cost stays zero and
        every other cost keeps its sign. */
    method Inflate(targetYear: int)
      requires Valid() && Inflation.Covered(targetYear)
      modifies this
      ensures Valid()
      ensures forall i :: 0 <= i < DEATH ==>
        days90Ischemic[i] == Inflation.Run(ISCHEMIC_COST_YEAR, targetYear, old(days90Ischemic[i]))
      ensures forall i :: 0 <= i < DEATH ==>
        days90Ich[i] == Inflation.Run(ICH_COST_YEAR, targetYear, old(days90Ich[i]))
      ensures forall i :: 0 <= i < DEATH ==>
        annual[i] == Inflation.Run(ANNUAL_COST_YEAR, targetYear, old(annual[i]))
      ensures death == Inflation.Run(DEATH_COST_YEAR, targetYear, old(death))
      ensures ivt == Inflation.Run(IVT_COST_YEAR, targetYear, old(ivt))
      ensures evt == Inflation.Run(EVT_COST_YEAR, targetYear, old(evt))
      ensures transfer == Inflation.Run(TRANSFER_COST_YEAR, targetYear, old(transfer))
    {
      for state := 0 to |days90Ischemic|
        invariant |days90Ischemic| == DEATH
        invariant forall i :: 0 <= i < state ==>
          days90Ischemic[i] == Inflation.Run(ISCHEMIC_COST_YEAR, targetYear, old(days90Ischemic[i]))
        invariant forall i :: state <= i < DEATH ==> days90Ischemic[i] == old(days90Ischemic[i])
        invariant days90Ich == old(days90Ich) && annual == old(annual)
        invariant death == old(death) && ivt == old(ivt) && evt == old(evt) && transfer == old(transfer)
      {
        days90Ischemic := days90Ischemic[state :=
          Inflation.Run(ISCHEMIC_COST_YEAR, targetYear, days90Ischemic[state])];
      }
      for state := 0 to |days90Ich|
        invariant |days90Ich| == DEATH && |days90Ischemic| == DEATH
        invariant forall i :: 0 <= i < state ==>
          days90Ich[i] == Inflation.Run(ICH_COST_YEAR, targetYear, old(days90Ich[i]))
        invariant forall i :: state <= i < DEATH ==> days90Ich[i] == old(days90Ich[i])
        invariant annual == old(annual)
        invariant forall i :: 0 <= i < DEATH ==>
          days90Ischemic[i] == Inflation.Run(ISCHEMIC_COST_YEAR, targetYear, old(days90Ischemic[i]))
        invariant death == old(death) && ivt == old(ivt) && evt == old(evt) && transfer == old(transfer)
      {
        days90Ich := days90Ich[state :=
          Inflation.Run(ICH_COST_YEAR, targetYear, days90Ich[state])];
      }
      for state := 0 to |annual|
        invariant |annual| == DEATH && |days90Ischemic| == DEATH && |days90Ich| == DEATH
        invariant forall i :: 0 <= i < state ==>
          annual[i] == Inflation.Run(ANNUAL_COST_YEAR, targetYear, old(annual[i]))
        invariant forall i :: state <= i < DEATH ==> annual[i] == old(annual[i])
        invariant forall i :: 0 <= i < DEATH ==>
          days90Ischemic[i] == Inflation.Run(ISCHEMIC_COST_YEAR, targetYear, old(days90Ischemic[i]))
        invariant forall i :: 0 <= i < DEATH ==>
          days90Ich[i] == Inflation.Run(ICH_COST_YEAR, targetYear, old(days90Ich[i]))
        invariant death == old(death) && ivt == old(ivt) && evt == old(evt) && transfer == old(transfer)
      {
        annual := annual[state :=
          Inflation.Run(ANNUAL_COST_YEAR, targetYear, annual[state])];
      }
      death := Inflation.Run(DEATH_COST_YEAR, targetYear, death);
      ivt := Inflation.Run(IVT_COST_YEAR, targetYear, ivt);
      evt := Inflation.Run(EVT_COST_YEAR, targetYear, evt);
      transfer := Inflation.Run(TRANSFER_COST_YEAR, targetYear, transfer);
    }
  }

  /** After inflating the published tables, every cost of the general
      population is still zero and every other cost is still positive. */
  method InflatedTables(targetYear: int) returns (c: UnitCosts)
    requires Inflation.Covered(targetYear)
    ensures c.WellFormed()
    ensures c.days90Ischemic[GEN_POP] == 0.0 && c.days90Ich[GEN_POP] == 0.0 && c.annual[GEN_POP] == 0.0
    ensures forall i :: GEN_POP < i < DEATH ==>
      0.0 < c.days90Ischemic[i] && 0.0 < c.days90Ich[i] && 0.0 < c.annual[i]
    ensures 0.0 < c.death && 0.0 < c.ivt && 0.0 < c.evt && 0.0 < c.transfer
  {
    var costs := new Costs();
    costs.Inflate(targetYear);
    c := costs.Current();
  }

  // ---------------------------------------------------------------------
  // Cost formulas
  // ---------------------------------------------------------------------

  /** The sum over the first `n` states of mass times unit cost. */
  function Dot(mass: seq<real>, unit: seq<real>, n: nat): real
    requires n <= |mass| && n <= |unit|
  {
    if n == 0 then 0.0 else Dot(mass, unit, n - 1) + mass[n - 1] * unit[n - 1]
  }

  /** First-year unit cost of each living state: 90 days at the acute cost
      and the remaining 270 days at the annual cost. */
  function FirstYearUnit(days90: seq<real>, annual: seq<real>): (u: seq<real>)
    requires |days90| == DEATH && |annual| == DEATH
    ensures |u| == DEATH
  {
    seq(DEATH, i requires 0 <= i < DEATH =>
      (90.0 / 360.0) * days90[i] + ((360.0 - 90.0) / 360.0) * annual[i])
  }

  /** Cost of the first year of a hemorrhagic and an ischemic state vector;
      death is charged once at its unit cost. */
  function FirstYearCosts(statesHemorrhagic: seq<real>, statesIschemic: seq<real>,
                          c: UnitCosts): real
    requires c.WellFormed()
    requires |statesHemorrhagic| == NUMBER_OF_STATES && |statesIschemic| == NUMBER_OF_STATES
  {
    var costHemorrhagic := Dot(statesHemorrhagic, FirstYearUnit(c.days90Ich, c.annual), DEATH)
                           + c.death * statesHemorrhagic[DEATH];
    var costIschemic := Dot(statesIschemic, FirstYearUnit(c.days90Ischemic, c.annual), DEATH)
                        + c.death * statesIschemic[DEATH];
    costHemorrhagic + costIschemic
  }

  /** Cost of one year in the state vector `states`: every living state at
      its annual cost and the mass in death at the death cost. */
  function AnnualCost(states: seq<real>, c: UnitCosts): real
    requires c.WellFormed() && |states| == NUMBER_OF_STATES
  {
    Dot(states, c.annual, DEATH) + states[DEATH] * c.death
  }

  lemma {:induction false} DotAdd(a: seq<real>, b: seq<real>, unit: seq<real>, n: nat)
    requires |a| == |b| && n <= |a| && n <= |unit|
    ensures Dot(Add(a, b), unit, n) == Dot(a, unit, n) + Dot(b, unit, n)
  {
    if n > 0 {
      DotAdd(a, b, unit, n - 1);
      var u := unit[n - 1];
      assert Add(a, b)[n - 1] * u == a[n - 1] * u + b[n - 1] * u;
    }
  }

  lemma {:induction false} DotScale(a: seq<real>, k: real, unit: seq<real>, n: nat)
    requires n <= |a| && n <= |unit|
    ensures Dot(Scale(k, a), unit, n) == k * Dot(a, unit, n)
  {
    if n > 0 {
      DotScale(a, k, unit, n - 1);
      assert Scale(k, a)[n - 1] * unit[n - 1] == k * (a[n - 1] * unit[n - 1]);
    }
  }

  lemma {:induction false} DotOfBlend(mass: seq<real>, x: seq<real>, y: seq<real>,
                                       u: seq<real>, p: real, q: real, n: nat)
    requires n <= |mass| && n <= |x| && n <= |y| && n <= |u|
    requires forall i :: 0 <= i < n ==> u[i] == p * x[i] + q * y[i]
    ensures Dot(mass, u, n) == p * Dot(mass, x, n) + q * Dot(mass, y, n)
  {
    if n > 0 {
      DotOfBlend(mass, x, y, u, p, q, n - 1);
      assert mass[n - 1] * u[n - 1] == p * (mass[n - 1] * x[n - 1]) + q * (mass[n - 1] * y[n - 1]);
    }
  }

  lemma {:induction false} DotNonNegative(mass: seq<real>, unit: seq<real>, n: nat)
    requires n <= |mass| && n <= |unit|
    requires forall i :: 0 <= i < n ==> 0.0 <= mass[i] && 0.0 <= unit[i]
    ensures 0.0 <= Dot(mass, unit, n)
  {
    if n > 0 {
      DotNonNegative(mass, unit, n - 1);
    }
  }

  lemma {:induction false} DotOfZeroMass(mass: seq<real>, unit: seq<real>, n: nat)
    requires n <= |mass| && n <= |unit|
    requires forall i :: 0 <= i < n ==> mass[i] == 0.0
    ensures Dot(mass, unit, n) == 0.0
  {
    if n > 0 {
      DotOfZeroMass(mass, unit, n - 1);
    }
  }

  /** The annual cost is linear in the state vector. */
  lemma AnnualCostLinear(a: seq<real>, b: seq<real>, k: real, c: UnitCosts)
    requires c.WellFormed() && |a| == NUMBER_OF_STATES && |b| == NUMBER_OF_STATES
    ensures AnnualCost(Add(a, b), c) == AnnualCost(a, c) + AnnualCost(b, c)
    ensures AnnualCost(Scale(k, a), c) == k * AnnualCost(a, c)
  {
    DotAdd(a, b, c.annual, DEATH);
    DotScale(a, k, c.annual, DEATH);
  }

  /** A cohort wholly in death costs its mass times the death cost. */
  lemma AnnualCostAllDead(states: seq<real>, c: UnitCosts)
    requires c.WellFormed() && |states| == NUMBER_OF_STATES
    requires forall i :: 0 <= i < DEATH ==> states[i] == 0.0
    ensures AnnualCost(states, c) == states[DEATH] * c.death
  {
    DotOfZeroMass(states, c.annual, DEATH);
  }

  /** Non-negative masses and costs give a non-negative annual cost. */
  lemma AnnualCostNonNegative(states: seq<real>, c: UnitCosts)
    requires c.WellFormed() && |states| == NUMBER_OF_STATES
    requires forall i :: 0 <= i < NUMBER_OF_STATES ==> 0.0 <= states[i]
    requires (forall i :: 0 <= i < DEATH ==> 0.0 <= c.annual[i]) && 0.0 <= c.death
    ensures 0.0 <= AnnualCost(states, c)
  {
    DotNonNegative(states, c.annual, DEATH);
  }

  /** The first-year cost is a quarter year of acute cost plus three quarters
      of a year at the annual cost, for both vectors, except that the mass in
      death is charged its death cost once rather than three quarters of it. */
  lemma FirstYearCostsDecomposition(statesHemorrhagic: seq<real>, statesIschemic: seq<real>,
                                    c: UnitCosts)
    requires c.WellFormed()
    requires |statesHemorrhagic| == NUMBER_OF_STATES && |statesIschemic| == NUMBER_OF_STATES
    ensures FirstYearCosts(statesHemorrhagic, statesIschemic, c)
         == 0.25 * (Dot(statesHemorrhagic, c.days90Ich, DEATH) + Dot(statesIschemic, c.days90Ischemic, DEATH))
          + 0.75 * (AnnualCost(statesHemorrhagic, c) + AnnualCost(statesIschemic, c))
          + 0.25 * c.death * (statesHemorrhagic[DEATH] + statesIschemic[DEATH])
  {
    DotOfBlend(statesHemorrhagic, c.days90Ich, c.annual, FirstYearUnit(c.days90Ich, c.annual),
               0.25, 0.75, DEATH);
    DotOfBlend(statesIschemic, c.days90Ischemic, c.annual, FirstYearUnit(c.days90Ischemic, c.annual),
               0.25, 0.75, DEATH);
  }
}
