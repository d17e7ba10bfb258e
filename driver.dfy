/** The decision logic of the driver (main.py): which strategies one patient
    scenario is evaluated under, the strategy with the maximum benefit, the
    optimal location, the percentage tally of the probabilistic model and the
    name of the output file of a random-set run.

    The random treatment times, the random LVO draw and the file output of
    the driver are not modelled: the patient model and the cohort settings a
    run uses, and the results of the random evaluations, are inputs. */
module Driver {
  import opened Numeric
  import opened Constants
  import opened AisOutcomes
  import Cohort
  import OptimalStrategy

  type Value = OptimalStrategy.Value
  type Selection = OptimalStrategy.Selection

  const PRIMARY: string := "Primary"
  const COMPREHENSIVE: string := "Comprehensive"
  const DRIP_AND_SHIP: string := "Drip and Ship"

  /** The strategies in the order the driver evaluates and reports them. */
  const STRATEGIES: seq<string> := [PRIMARY, COMPREHENSIVE, DRIP_AND_SHIP]

  /** The maximum-benefit label of a run decided by the RACE cutoff alone. */
  const BASED_ON_CUTOFF: string := "Based on cutoff"

  /** The maximum-benefit label when no strategy has positive QALYs. */
  const NO_STRATEGY: string := "N/A"

  /** The costs (and QALYs) a run starts with: zero for the two direct
      strategies, 'N/A' for drip and ship. */
  const INITIAL_VALUES: map<string, Value> :=
    map[PRIMARY := OptimalStrategy.Num(0.0), COMPREHENSIVE := OptimalStrategy.Num(0.0),
        DRIP_AND_SHIP := OptimalStrategy.NA]

  // ---------------------------------------------------------------------
  // One model run
  // ---------------------------------------------------------------------

  /** What one run reports: the optimal location, the location with the
      maximum benefit, and the cost and the QALYs of every strategy. */
  datatype ModelResults = ModelResults(
    optimalLocation: Selection,
    maxBenefit: string,
    costs: map<string, Value>,
    qalys: map<string, Value>)

  /** The outcome probabilities of every strategy are defined. */
  predicate Evaluable(m: IschemicModel)
  {
    TpaOddsDefined(m.onsetNeedlePrimary, m.nihss) && TpaOddsDefined(m.onsetNeedleComprehensive, m.nihss)
  }

  /** The strategies a patient is evaluated under: drip and ship only when the
      transfer still reaches EVT in time. */
  function Strategies(m: IschemicModel): (s: seq<string>)
    ensures 2 <= |s| <= |STRATEGIES| && s == STRATEGIES[..|s|]
    ensures s[0] == PRIMARY && s[1] == COMPREHENSIVE
    ensures DRIP_AND_SHIP in s <==> m.onsetEvtShip <= TIME_LIMIT_EVT
  {
    LabelsDistinct(STRATEGIES);
    if m.onsetEvtShip > TIME_LIMIT_EVT then STRATEGIES[..|STRATEGIES| - 1] else STRATEGIES
  }

  /** The two lists `Strategies` can give. */
  lemma StrategiesCases(m: IschemicModel)
    ensures Strategies(m) == if m.onsetEvtShip > TIME_LIMIT_EVT then [PRIMARY, COMPREHENSIVE] else STRATEGIES
  {
    assert STRATEGIES[..|STRATEGIES| - 1] == [PRIMARY, COMPREHENSIVE];
  }

  /** `o` is what the patient model gives for the strategy named `key`. */
  predicate OutcomeFor(m: IschemicModel, key: string, o: Outcomes)
    requires Evaluable(m)
  {
    if key == PRIMARY then m.IsPrimaryOutcome(o)
    else if key == COMPREHENSIVE then m.IsComprehensiveOutcome(o)
    else key == DRIP_AND_SHIP && m.onsetEvtShip <= TIME_LIMIT_EVT && m.IsShipOutcome(o)
  }

  /** `o` is what the patient model gives for the `j`-th strategy in the
      order of `STRATEGIES`. */
  predicate OutcomeAt(m: IschemicModel, j: nat, o: Outcomes)
    requires Evaluable(m)
  {
    if j == 0 then m.IsPrimaryOutcome(o)
    else if j == 1 then m.IsComprehensiveOutcome(o)
    else j == 2 && m.onsetEvtShip <= TIME_LIMIT_EVT && m.IsShipOutcome(o)
  }

  /** The two ways of naming a strategy's outcome agree on the strategies a
      patient is evaluated under. */
  lemma OutcomeAtIsOutcomeFor(m: IschemicModel, j: nat, o: Outcomes)
    requires Evaluable(m) && j < |Strategies(m)|
    ensures OutcomeAt(m, j, o) <==> OutcomeFor(m, Strategies(m)[j], o)
  {
    StrategiesCases(m);
    LabelsDistinct(Strategies(m));
  }

  /** Every `os[j]` is the outcome of the `j`-th strategy. */
  predicate OutcomesAt(m: IschemicModel, os: seq<Outcomes>)
    requires Evaluable(m)
  {
    |os| == 0 || (OutcomesAt(m, os[..|os| - 1]) && OutcomeAt(m, |os| - 1, os[|os| - 1]))
  }

  lemma OutcomesAtSnoc(m: IschemicModel, os: seq<Outcomes>, o: Outcomes)
    requires Evaluable(m) && OutcomesAt(m, os) && OutcomeAt(m, |os|, o)
    ensures OutcomesAt(m, os + [o])
  {
    assert (os + [o])[..|os|] == os;
  }

  /** Read position by position, every outcome recorded is the one the patient
      model gives for its strategy. */
  lemma {:induction false} OutcomesAtEach(m: IschemicModel, os: seq<Outcomes>)
    requires Evaluable(m) && |os| <= |Strategies(m)| && OutcomesAt(m, os)
    ensures forall i :: 0 <= i < |os| ==> OutcomeFor(m, Strategies(m)[i], os[i])
  {
    if |os| > 0 {
      OutcomesAtEach(m, os[..|os| - 1]);
      OutcomeAtIsOutcomeFor(m, |os| - 1, os[|os| - 1]);
      forall i | 0 <= i < |os| - 1
        ensures OutcomeFor(m, Strategies(m)[i], os[i])
      {
        assert os[i] == os[..|os| - 1][i];
      }
    }
  }

  /** The integrated costs and QALYs of the cohorts with outcomes `os`. */
  function CostsOf(os: seq<Outcomes>, st: Cohort.Settings): (r: seq<real>)
    requires st.Valid()
    ensures |r| == |os|
    ensures forall i :: 0 <= i < |os| ==> r[i] == Cohort.CohortCosts(os[i], st)
  {
    if os == [] then [] else CostsOf(os[..|os| - 1], st) + [Cohort.CohortCosts(os[|os| - 1], st)]
  }

  function QalysOf(os: seq<Outcomes>, st: Cohort.Settings): (r: seq<real>)
    requires st.Valid()
    ensures |r| == |os|
    ensures forall i :: 0 <= i < |os| ==> r[i] == Cohort.CohortQalys(os[i], st)
  {
    if os == [] then [] else QalysOf(os[..|os| - 1], st) + [Cohort.CohortQalys(os[|os| - 1], st)]
  }

  /** `base` with the value of every name in turn set to the matching value. */
  function Record(base: map<string, Value>, names: seq<string>, values: seq<real>): map<string, Value>
    requires |names| == |values|
  {
    if names == [] then base
    else
      var n := |names| - 1;
      Record(base, names[..n], values[..n])[names[n] := OptimalStrategy.Num(values[n])]
  }

  lemma RecordSnoc(base: map<string, Value>, names: seq<string>, values: seq<real>, name: string, v: real)
    requires |names| == |values|
    ensures Record(base, names + [name], values + [v]) == Record(base, names, values)[name := OptimalStrategy.Num(v)]
  {
    assert (names + [name])[..|names|] == names;
    assert (values + [v])[..|values|] == values;
  }

  /** Recording adds exactly the recorded names to the keys. */
  lemma {:induction false} RecordKeys(base: map<string, Value>, names: seq<string>, values: seq<real>)
    requires |names| == |values|
    ensures Record(base, names, values).Keys == base.Keys + set n | n in names
  {
    if names != [] {
      var n := |names| - 1;
      RecordKeys(base, names[..n], values[..n]);
      OptimalStrategy.LastSplit(names);
      assert (set k | k in names) == (set k | k in names[..n]) + {names[n]};
    }
  }

  /** Among distinct names, each ends up set to its own value. */
  lemma {:induction false} RecordSets(base: map<string, Value>, names: seq<string>, values: seq<real>, i: nat)
    requires |names| == |values| && i < |names|
    requires forall i, j :: 0 <= i < j < |names| ==> names[i] != names[j]
    ensures names[i] in Record(base, names, values)
    ensures Record(base, names, values)[names[i]] == OptimalStrategy.Num(values[i])
  {
    var n := |names| - 1;
    if i < n {
      assert names[i] == names[..n][i] && values[i] == values[..n][i];
      RecordSets(base, names[..n], values[..n], i);
    }
  }

  /** An entry of `base` whose name is not recorded keeps its value. */
  lemma {:induction false} RecordKeeps(base: map<string, Value>, names: seq<string>, values: seq<real>, k: string)
    requires |names| == |values| && k in base && k !in names
    ensures k in Record(base, names, values) && Record(base, names, values)[k] == base[k]
  {
    if names != [] {
      var n := |names| - 1;
      assert k !in names[..n] && k != names[n];
      RecordKeeps(base, names[..n], values[..n], k);
    }
  }

  /** Recording distinct names sets each of them to its value and leaves every
      other entry of `base` as it was. */
  lemma RecordLookup(base: map<string, Value>, names: seq<string>, values: seq<real>)
    requires |names| == |values|
    requires forall i, j :: 0 <= i < j < |names| ==> names[i] != names[j]
    ensures Record(base, names, values).Keys == base.Keys + set n | n in names
    ensures forall i :: 0 <= i < |names| ==> Record(base, names, values)[names[i]] == OptimalStrategy.Num(values[i])
    ensures forall k :: k in base && k !in names ==> Record(base, names, values)[k] == base[k]
  {
    RecordKeys(base, names, values);
    forall i | 0 <= i < |names|
      ensures Record(base, names, values)[names[i]] == OptimalStrategy.Num(values[i])
    {
      RecordSets(base, names, values, i);
    }
    forall k | k in base && k !in names
      ensures Record(base, names, values)[k] == base[k]
    {
      RecordKeeps(base, names, values, k);
    }
  }

  /** The index of the first strategy whose QALYs are strictly the largest so
      far and above zero, scanning in list order. */
  function BestIndex(q: seq<real>): (r: Option<nat>)
    decreases |q|, 1
    ensures r.Some? ==> r.value < |q|
  {
    if q == [] then None
    else
      var n := |q| - 1;
      if q[n] > BestQaly(q[..n]) then Some(n) else BestIndex(q[..n])
  }

  /** The QALYs recorded as the maximum; zero before any strategy beats it. */
  function BestQaly(q: seq<real>): real
    decreases |q|, 2
  {
    match BestIndex(q)
    case None => 0.0
    case Some(i) => q[i]
  }

  /** The location with the maximum benefit among `names` with QALYs `q`. */
  function MaxBenefit(names: seq<string>, q: seq<real>): string
    requires |names| == |q|
  {
    match BestIndex(q)
    case None => NO_STRATEGY
    case Some(i) => names[i]
  }

  /** `q[i]` is positive, strictly above every earlier entry, and at least
      every later one. */
  predicate FirstMaximum(q: seq<real>, i: nat)
  {
    && i < |q|
    && 0.0 < q[i]
    && (forall j :: 0 <= j < i ==> q[j] < q[i])
    && (forall j :: i < j < |q| ==> q[j] <= q[i])
  }

  lemma BestIndexSnoc(q: seq<real>, x: real)
    ensures BestIndex(q + [x]) == if x > BestQaly(q) then Some(|q|) else BestIndex(q)
  {
    assert (q + [x])[..|q|] == q;
  }

  /** The scan finds no strategy exactly when no QALYs are positive, and
      otherwise the first strict maximum. */
  lemma {:induction false} BestIndexIsFirstMaximum(q: seq<real>)
    ensures BestIndex(q).None? <==> forall j :: 0 <= j < |q| ==> q[j] <= 0.0
    ensures BestIndex(q).Some? ==> FirstMaximum(q, BestIndex(q).value)
  {
    if q != [] {
      var n := |q| - 1;
      var p := q[..n];
      BestIndexIsFirstMaximum(p);
      OptimalStrategy.LastSplit(q);
      BestIndexSnoc(p, q[n]);
      assert forall j :: 0 <= j < n ==> q[j] == p[j];
    }
  }

  /** The first maximum is unique, so it is what the scan finds. */
  lemma BestIndexOfFirstMaximum(q: seq<real>, i: nat)
    requires FirstMaximum(q, i)
    ensures BestIndex(q) == Some(i)
  {
    BestIndexIsFirstMaximum(q);
    var k := BestIndex(q).value;
    assert FirstMaximum(q, k);
    assert k == i;
  }

  /** The maximum-benefit scan over one more strategy. */
  lemma MaxBenefitSnoc(names: seq<string>, q: seq<real>, name: string, x: real)
    requires |names| == |q|
    ensures BestQaly(q + [x]) == if x > BestQaly(q) then x else BestQaly(q)
    ensures MaxBenefit(names + [name], q + [x]) == if x > BestQaly(q) then name else MaxBenefit(names, q)
  {
    BestIndexSnoc(q, x);
    var b := BestIndex(q);
    if b.Some? {
      assert (q + [x])[b.value] == q[b.value];
      assert (names + [name])[b.value] == names[b.value];
    }
  }

  lemma OfSnoc(os: seq<Outcomes>, o: Outcomes, st: Cohort.Settings)
    requires st.Valid()
    ensures CostsOf(os + [o], st) == CostsOf(os, st) + [Cohort.CohortCosts(o, st)]
    ensures QalysOf(os + [o], st) == QalysOf(os, st) + [Cohort.CohortQalys(o, st)]
  {
    assert (os + [o])[..|os|] == os;
  }

  /** The costs and QALYs of the cohort a strategy yields: the patient
      model's outcomes for it (never an unavailable drip and ship here) are
      run through the cohort model. */
  method EvaluateStrategy(m: IschemicModel, st: Cohort.Settings, strategy: string)
    returns (cost: real, qaly: real, ghost o: Outcomes)
    requires Evaluable(m) && st.Valid() && strategy in Strategies(m)
    ensures OutcomeFor(m, strategy, o)
    ensures cost == Cohort.CohortCosts(o, st) && qaly == Cohort.CohortQalys(o, st)
  {
    assert strategy == PRIMARY || strategy == COMPREHENSIVE
           || (strategy == DRIP_AND_SHIP && m.onsetEvtShip <= TIME_LIMIT_EVT);
    var ischemicOutcomes := m.GetAisOutcomes(strategy);
    var markovedPopulation := new Cohort.Population(ischemicOutcomes.value, strategy, st);
    cost, qaly, o := markovedPopulation.costs, markovedPopulation.qalys, ischemicOutcomes.value;
  }

  /** The state of the scan after the strategies `names` with costs `c` and
      QALYs `q`: both tables record them, and the maximum so far is kept. */
  ghost predicate Scanned(names: seq<string>, c: seq<real>, q: seq<real>,
                          costs: map<string, Value>, qalys: map<string, Value>, maxStrategy: string, maxQalys: real)
  {
    && |names| == |c| == |q|
    && costs == Record(INITIAL_VALUES, names, c)
    && qalys == Record(INITIAL_VALUES, names, q)
    && maxStrategy == MaxBenefit(names, q)
    && maxQalys == BestQaly(q)
  }

  /** Recording one more strategy and comparing its QALYs with the maximum
      keeps the scan state. */
  lemma ScanStep(names: seq<string>, c: seq<real>, q: seq<real>,
                 costs: map<string, Value>, qalys: map<string, Value>, maxStrategy: string, maxQalys: real,
                 name: string, cost: real, qaly: real)
    requires Scanned(names, c, q, costs, qalys, maxStrategy, maxQalys)
    ensures Scanned(names + [name], c + [cost], q + [qaly],
                    costs[name := OptimalStrategy.Num(cost)], qalys[name := OptimalStrategy.Num(qaly)],
                    if qaly > maxQalys then name else maxStrategy, if qaly > maxQalys then qaly else maxQalys)
  {
    RecordSnoc(INITIAL_VALUES, names, c, name, cost);
    RecordSnoc(INITIAL_VALUES, names, q, name, qaly);
    MaxBenefitSnoc(names, q, name, qaly);
  }

  /** The state of the loop over `strategies` after its first `i` steps:
      each outcome is the patient model's for its strategy, and the scan
      state records their cohorts' costs and QALYs. */
  ghost predicate EvaluatedUpTo(m: IschemicModel, st: Cohort.Settings, strategies: seq<string>, i: nat,
                                outcomes: seq<Outcomes>, costs: map<string, Value>, qalys: map<string, Value>,
                                maxStrategy: string, maxQalys: real)
    requires Evaluable(m) && st.Valid()
  {
    && i <= |strategies| && |outcomes| == i
    && OutcomesAt(m, outcomes)
    && Scanned(strategies[..i], CostsOf(outcomes, st), QalysOf(outcomes, st), costs, qalys, maxStrategy, maxQalys)
  }

  /** One step of the loop: the `i`-th strategy is evaluated, recorded in
      both tables and compared with the maximum benefit so far. */
  method EvaluateNext(m: IschemicModel, st: Cohort.Settings, strategies: seq<string>, i: nat,
                      ghost outcomes: seq<Outcomes>, costs: map<string, Value>, qalys: map<string, Value>,
                      maxStrategy: string, maxQalys: real)
    returns (ghost outcomes': seq<Outcomes>, costs': map<string, Value>, qalys': map<string, Value>,
             maxStrategy': string, maxQalys': real)
    requires Evaluable(m) && st.Valid() && strategies == Strategies(m) && i < |strategies|
    requires EvaluatedUpTo(m, st, strategies, i, outcomes, costs, qalys, maxStrategy, maxQalys)
    ensures EvaluatedUpTo(m, st, strategies, i + 1, outcomes', costs', qalys', maxStrategy', maxQalys')
  {
    var strategy := strategies[i];
    var cost, qaly;
    ghost var o;
    cost, qaly, o := EvaluateStrategy(m, st, strategy);
    OutcomeAtIsOutcomeFor(m, i, o);
    OutcomesAtSnoc(m, outcomes, o);
    ScanStep(strategies[..i], CostsOf(outcomes, st), QalysOf(outcomes, st), costs, qalys, maxStrategy, maxQalys,
             strategy, cost, qaly);
    costs' := costs[strategy := OptimalStrategy.Num(cost)];
    qalys' := qalys[strategy := OptimalStrategy.Num(qaly)];
    maxStrategy', maxQalys' := maxStrategy, maxQalys;
    if qaly > maxQalys {
      maxQalys' := qaly;
      maxStrategy' := strategy;
    }
    OfSnoc(outcomes, o, st);
    OptimalStrategy.TakeNext(strategies, i);
    outcomes' := outcomes + [o];
  }

  /** Once the loop has been through every strategy, its state is the
      report of that evaluation. */
  lemma EvaluatedAll(m: IschemicModel, st: Cohort.Settings, strategies: seq<string>, outcomes: seq<Outcomes>,
                     costs: map<string, Value>, qalys: map<string, Value>, maxStrategy: string, maxQalys: real)
    requires Evaluable(m) && st.Valid() && strategies == Strategies(m)
    requires EvaluatedUpTo(m, st, strategies, |strategies|, outcomes, costs, qalys, maxStrategy, maxQalys)
    ensures |outcomes| == |strategies|
    ensures forall i :: 0 <= i < |strategies| ==> OutcomeFor(m, strategies[i], outcomes[i])
    ensures costs == Record(INITIAL_VALUES, strategies, CostsOf(outcomes, st))
    ensures qalys == Record(INITIAL_VALUES, strategies, QalysOf(outcomes, st))
    ensures maxStrategy == MaxBenefit(strategies, QalysOf(outcomes, st))
  {
    OutcomesAtEach(m, outcomes);
    WholeSlice(strategies);
  }

  lemma WholeSlice<T>(s: seq<T>)
    ensures s[..|s|] == s
  {
  }

  /** Evaluates every strategy: the cohort of its outcomes gives its costs
      and QALYs, and the first strategy with strictly the largest positive
      QALYs is recorded as the one with the maximum benefit. */
  method EvaluateStrategies(m: IschemicModel, st: Cohort.Settings, strategies: seq<string>)
    returns (costs: map<string, Value>, qalys: map<string, Value>, maxBenefit: string, ghost outcomes: seq<Outcomes>)
    requires Evaluable(m) && st.Valid() && strategies == Strategies(m)
    ensures |outcomes| == |strategies|
    ensures forall i :: 0 <= i < |strategies| ==> OutcomeFor(m, strategies[i], outcomes[i])
    ensures costs == Record(INITIAL_VALUES, strategies, CostsOf(outcomes, st))
    ensures qalys == Record(INITIAL_VALUES, strategies, QalysOf(outcomes, st))
    ensures maxBenefit == MaxBenefit(strategies, QalysOf(outcomes, st))
  {
    costs, qalys := INITIAL_VALUES, INITIAL_VALUES;
    var maxStrategy, maxQalys := NO_STRATEGY, 0.0;
    outcomes := [];
    for i := 0 to |strategies|
      invariant EvaluatedUpTo(m, st, strategies, i, outcomes, costs, qalys, maxStrategy, maxQalys)
    {
      outcomes, costs, qalys, maxStrategy, maxQalys :=
        EvaluateNext(m, st, strategies, i, outcomes, costs, qalys, maxStrategy, maxQalys);
    }
    EvaluatedAll(m, st, strategies, outcomes, costs, qalys, maxStrategy, maxQalys);
    maxBenefit := maxStrategy;
  }

  /** The full report of a run that evaluates `strategies`: each has the
      outcomes the patient model gives for it, its cost and QALYs are those of
      the cohort with those outcomes, the maximum benefit is found by the
      scan, and the optimal location is the cost-effectiveness selection. */
  ghost predicate Evaluated(m: IschemicModel, st: Cohort.Settings, threshold: real, strategies: seq<string>,
                            results: ModelResults, outcomes: seq<Outcomes>)
    requires Evaluable(m) && st.Valid()
  {
    && |outcomes| == |strategies|
    && (forall i :: 0 <= i < |strategies| ==> OutcomeFor(m, strategies[i], outcomes[i]))
    && results.costs == Record(INITIAL_VALUES, strategies, CostsOf(outcomes, st))
    && results.qalys == Record(INITIAL_VALUES, strategies, QalysOf(outcomes, st))
    && results.maxBenefit == MaxBenefit(strategies, QalysOf(outcomes, st))
    && OptimalStrategy.Priced(results.costs, results.qalys, strategies)
    && results.optimalLocation
       == OptimalStrategy.Optimal(OptimalStrategy.FormattedRows(results.costs, results.qalys, strategies), threshold)
  }

  /** One run of the model for a patient: the RACE cutoff alone decides when
      no treatment is reachable in time; otherwise every available strategy is
      evaluated and the optimal location is chosen by cost-effectiveness. */
  method RunModel(m: IschemicModel, st: Cohort.Settings, threshold: real)
    returns (results: ModelResults, ghost outcomes: seq<Outcomes>)
    requires m.Valid() && (m.modelIsNecessary ==> Evaluable(m)) && st.Valid()
    requires st.startAge == m.age && st.sex == m.sex && st.nihss == m.nihss
    ensures !m.modelIsNecessary ==>
              results == ModelResults(OptimalStrategy.Selected(NoTxWhereToGo(m.race)), BASED_ON_CUTOFF,
                                      INITIAL_VALUES, INITIAL_VALUES)
    ensures m.modelIsNecessary ==> Evaluated(m, st, threshold, Strategies(m), results, outcomes)
    ensures results.optimalLocation.Selected? ==> results.optimalLocation.location in STRATEGIES
  {
    outcomes := [];
    if !m.modelIsNecessary {
      results := ModelResults(OptimalStrategy.Selected(m.cutoffLocation.value), BASED_ON_CUTOFF,
                              INITIAL_VALUES, INITIAL_VALUES);
      return;
    }
    var ship := m.RunPrimaryThenShip();
    var strategies := if ship.None? then STRATEGIES[..|STRATEGIES| - 1] else STRATEGIES;
    StrategiesCases(m);
    assert strategies == Strategies(m);
    var costs, qalys, maxBenefit;
    costs, qalys, maxBenefit, outcomes := EvaluateStrategies(m, st, strategies);
    StrategiesPriced(strategies, CostsOf(outcomes, st), QalysOf(outcomes, st));
    var selection := OptimalStrategy.GetOptimal(costs, qalys, strategies, threshold);
    results := ModelResults(selection, maxBenefit, costs, qalys);
    if selection.Selected? {
      OptimalStrategy.OptimalIsAStrategy(OptimalStrategy.FormattedRows(costs, qalys, strategies), threshold);
    }
  }

  /** The labels are pairwise different: they start with different letters. */
  lemma LabelsDistinct(strategies: seq<string>)
    requires strategies == STRATEGIES || strategies == [PRIMARY, COMPREHENSIVE]
    ensures forall i, j :: 0 <= i < j < |strategies| ==> strategies[i] != strategies[j]
    ensures NO_STRATEGY !in strategies
  {
    assert PRIMARY[0] == 'P' && COMPREHENSIVE[0] == 'C' && DRIP_AND_SHIP[0] == 'D' && NO_STRATEGY[0] == 'N';
  }

  /** The strategies are distinct, so recording them prices every one. */
  lemma StrategiesPriced(strategies: seq<string>, c: seq<real>, q: seq<real>)
    requires strategies == STRATEGIES || strategies == [PRIMARY, COMPREHENSIVE]
    requires |c| == |strategies| == |q|
    ensures OptimalStrategy.Priced(Record(INITIAL_VALUES, strategies, c), Record(INITIAL_VALUES, strategies, q),
                                   strategies)
  {
    LabelsDistinct(strategies);
    RecordLookup(INITIAL_VALUES, strategies, c);
    RecordLookup(INITIAL_VALUES, strategies, q);
  }

  /** When drip and ship cannot reach EVT in time, its cost and QALYs stay
      'N/A'. */
  lemma UnavailableShipStaysNA(m: IschemicModel, st: Cohort.Settings, threshold: real,
                               results: ModelResults, outcomes: seq<Outcomes>)
    requires Evaluable(m) && st.Valid() && m.onsetEvtShip > TIME_LIMIT_EVT
    requires Evaluated(m, st, threshold, Strategies(m), results, outcomes)
    ensures DRIP_AND_SHIP in results.costs && results.costs[DRIP_AND_SHIP] == OptimalStrategy.NA
    ensures DRIP_AND_SHIP in results.qalys && results.qalys[DRIP_AND_SHIP] == OptimalStrategy.NA
  {
    StrategiesCases(m);
    LabelsDistinct(Strategies(m));
    RecordLookup(INITIAL_VALUES, Strategies(m), CostsOf(outcomes, st));
    RecordLookup(INITIAL_VALUES, Strategies(m), QalysOf(outcomes, st));
  }

  /** The location with the maximum benefit is 'N/A' exactly when no QALYs
      are positive, and otherwise the name of the first strict maximum. */
  lemma MaxBenefitIsFirstMaximum(names: seq<string>, q: seq<real>)
    requires |names| == |q| && NO_STRATEGY !in names
    ensures MaxBenefit(names, q) == NO_STRATEGY <==> forall j :: 0 <= j < |q| ==> q[j] <= 0.0
    ensures forall i: nat :: FirstMaximum(q, i) ==> MaxBenefit(names, q) == names[i]
  {
    BestIndexIsFirstMaximum(q);
    if BestIndex(q).Some? {
      assert names[BestIndex(q).value] in names;
    }
    forall i: nat | FirstMaximum(q, i)
      ensures MaxBenefit(names, q) == names[i]
    {
      BestIndexOfFirstMaximum(q, i);
    }
  }

  /** In a run whose tables record the cohorts of `outcomes` (as every
      `Evaluated` run does), the reported QALYs of each strategy are its
      cohort's, and the location with the maximum benefit is 'N/A' exactly
      when no strategy has positive QALYs, and otherwise the first with
      strictly the most. */
  lemma MaxBenefitOfRun(m: IschemicModel, st: Cohort.Settings, results: ModelResults, outcomes: seq<Outcomes>)
    requires st.Valid() && |outcomes| == |Strategies(m)|
    requires results.qalys == Record(INITIAL_VALUES, Strategies(m), QalysOf(outcomes, st))
    requires results.maxBenefit == MaxBenefit(Strategies(m), QalysOf(outcomes, st))
    ensures forall i :: 0 <= i < |outcomes| ==>
              && Strategies(m)[i] in results.qalys
              && results.qalys[Strategies(m)[i]] == OptimalStrategy.Num(Cohort.CohortQalys(outcomes[i], st))
    ensures results.maxBenefit == NO_STRATEGY <==>
              forall i :: 0 <= i < |outcomes| ==> Cohort.CohortQalys(outcomes[i], st) <= 0.0
    ensures forall i: nat :: FirstMaximum(QalysOf(outcomes, st), i) ==> results.maxBenefit == Strategies(m)[i]
  {
    StrategiesCases(m);
    RecordedMaxBenefit(Strategies(m), QalysOf(outcomes, st), results);
  }

  lemma RecordedMaxBenefit(strategies: seq<string>, q: seq<real>, results: ModelResults)
    requires strategies == STRATEGIES || strategies == [PRIMARY, COMPREHENSIVE]
    requires |q| == |strategies|
    requires results.qalys == Record(INITIAL_VALUES, strategies, q)
    requires results.maxBenefit == MaxBenefit(strategies, q)
    ensures forall i :: 0 <= i < |q| ==>
              strategies[i] in results.qalys && results.qalys[strategies[i]] == OptimalStrategy.Num(q[i])
    ensures results.maxBenefit == NO_STRATEGY <==> forall i :: 0 <= i < |q| ==> q[i] <= 0.0
    ensures forall i: nat :: FirstMaximum(q, i) ==> results.maxBenefit == strategies[i]
  {
    LabelsDistinct(strategies);
    RecordLookup(INITIAL_VALUES, strategies, q);
    MaxBenefitIsFirstMaximum(strategies, q);
  }

  // ---------------------------------------------------------------------
  // The probabilistic model
  // ---------------------------------------------------------------------

  /** A result of one probabilistic evaluation holds one optimal location per
      column: three (random times, random LVO, both) when times are compared
      with LVO, otherwise one. */
  function Width(comparison: bool): nat
  {
    if comparison then 3 else 1
  }

  /** Every column of `r` names one of the strategies. */
  predicate Located(r: seq<string>, w: nat)
  {
    |r| == w && forall c :: 0 <= c < w ==> r[c] in STRATEGIES
  }

  /** The number of results whose column `c` is the location `s`. */
  function Count(rs: seq<seq<string>>, c: nat, s: string): (n: nat)
    ensures n <= |rs|
  {
    if rs == [] then 0
    else
      var k := |rs| - 1;
      Count(rs[..k], c, s) + (if c < |rs[k]| && rs[k][c] == s then 1 else 0)
  }

  /** The share, in percent of a set of `evals` evaluations, that one result
      adds to its location's column. */
  function Multiplier(evals: int): real
    requires 0 < evals
  {
    1.0 / (evals as real) * 100.0
  }

  /** `x` added `n` times to zero, as the tally accumulates it. */
  function Repeat(n: nat, x: real): real
  {
    if n == 0 then 0.0 else Repeat(n - 1, x) + x
  }

  /** The percentage of evaluations in `rs` with location `s` in column `c`. */
  function Percent(rs: seq<seq<string>>, c: nat, s: string, evals: int): real
    requires 0 < evals
  {
    Repeat(Count(rs, c, s), Multiplier(evals))
  }

  lemma {:induction false} RepeatAdd(a: nat, b: nat, x: real)
    ensures Repeat(a, x) + Repeat(b, x) == Repeat(a + b, x)
  {
    if b > 0 {
      RepeatAdd(a, b - 1, x);
    }
  }

  /** Adding `x` `n` times gives `n` times `x`. */
  lemma {:induction false} RepeatIsProduct(n: nat, x: real)
    ensures Repeat(n, x) == n as real * x
  {
    if n > 0 {
      RepeatIsProduct(n - 1, x);
      calc {
        Repeat(n, x);
        (n - 1) as real * x + x;
        { Distribute((n - 1) as real, 1.0, 0.0, x); }
        n as real * x;
      }
    }
  }

  /** `p` holds, for every strategy and column below `w`, the percentage of
      the results `rs` plus, in the columns below `k`, the result `r`. */
  ghost predicate TalliedUpTo(p: map<string, seq<real>>, rs: seq<seq<string>>, r: seq<string>, k: nat, w: nat, evals: int)
    requires 0 < evals
  {
    && (forall s :: s in p <==> s in STRATEGIES)
    && forall s :: s in STRATEGIES ==>
         && |p[s]| == w
         && forall c :: 0 <= c < w ==> p[s][c] == Percent(if c < k then rs + [r] else rs, c, s, evals)
  }

  /** `p` holds the percentages of the results `rs`. */
  ghost predicate Tallied(p: map<string, seq<real>>, rs: seq<seq<string>>, w: nat, evals: int)
    requires 0 < evals
  {
    && (forall s :: s in p <==> s in STRATEGIES)
    && forall s :: s in STRATEGIES ==>
         |p[s]| == w && forall c :: 0 <= c < w ==> p[s][c] == Percent(rs, c, s, evals)
  }

  /** The sum of column `c` over the three strategies. */
  function ColumnSum(p: map<string, seq<real>>, c: nat): real
    requires forall s :: s in STRATEGIES ==> s in p && c < |p[s]|
  {
    p[PRIMARY][c] + p[COMPREHENSIVE][c] + p[DRIP_AND_SHIP][c]
  }

  /** `p` with `x` added to column `c` of location `s`. */
  function Bump(p: map<string, seq<real>>, s: string, c: nat, x: real): (q: map<string, seq<real>>)
    requires s in p && c < |p[s]|
    ensures q.Keys == p.Keys && |q[s]| == |p[s]|
    ensures q[s][c] == p[s][c] + x
    ensures forall d :: 0 <= d < |p[s]| && d != c ==> q[s][d] == p[s][d]
    ensures forall t :: t in p && t != s ==> q[t] == p[t]
  {
    p[s := p[s][c := p[s][c] + x]]
  }

  lemma CountSnoc(rs: seq<seq<string>>, r: seq<string>, c: nat, s: string)
    ensures Count(rs + [r], c, s) == Count(rs, c, s) + (if c < |r| && r[c] == s then 1 else 0)
  {
    assert (rs + [r])[..|rs|] == rs;
  }

  /** Adding one result's location in column `k` moves the tally on by one
      column. */
  lemma BumpStep(p: map<string, seq<real>>, rs: seq<seq<string>>, r: seq<string>, k: nat, w: nat, evals: int)
    requires 0 < evals && k < w && Located(r, w)
    requires TalliedUpTo(p, rs, r, k, w, evals)
    ensures r[k] in p && k < |p[r[k]]|
    ensures TalliedUpTo(Bump(p, r[k], k, Multiplier(evals)), rs, r, k + 1, w, evals)
  {
    var q := Bump(p, r[k], k, Multiplier(evals));
    forall s, c | s in STRATEGIES && 0 <= c < w
      ensures q[s][c] == Percent(if c < k + 1 then rs + [r] else rs, c, s, evals)
    {
      BumpEntry(p, rs, r, k, w, evals, s, c);
    }
  }

  /** One entry of the tally after adding column `k` of `r`. */
  lemma BumpEntry(p: map<string, seq<real>>, rs: seq<seq<string>>, r: seq<string>, k: nat, w: nat, evals: int,
                  s: string, c: nat)
    requires 0 < evals && k < w && Located(r, w)
    requires TalliedUpTo(p, rs, r, k, w, evals)
    requires s in STRATEGIES && c < w
    ensures r[k] in p && k < |p[r[k]]|
    ensures Bump(p, r[k], k, Multiplier(evals))[s][c] == Percent(if c < k + 1 then rs + [r] else rs, c, s, evals)
  {
    var x := Multiplier(evals);
    var q := Bump(p, r[k], k, x);
    if c != k {
      assert q[s][c] == p[s][c];
    } else if s == r[k] {
      CountSnoc(rs, r, k, s);
      assert q[s][c] == p[s][c] + x;
    } else {
      CountSnoc(rs, r, k, s);
      assert q[s] == p[s];
    }
  }

  lemma TalliedStart(p: map<string, seq<real>>, rs: seq<seq<string>>, r: seq<string>, w: nat, evals: int)
    requires 0 < evals && Tallied(p, rs, w, evals)
    ensures TalliedUpTo(p, rs, r, 0, w, evals)
  {
  }

  lemma TalliedEnd(p: map<string, seq<real>>, rs: seq<seq<string>>, r: seq<string>, w: nat, evals: int)
    requires 0 < evals && TalliedUpTo(p, rs, r, w, w, evals)
    ensures Tallied(p, rs + [r], w, evals)
  {
  }

  /** Every result names a strategy in column `c`, so the three counts of
      that column add up to the number of results. */
  lemma {:induction false} CountsPartition(rs: seq<seq<string>>, c: nat, w: nat)
    requires c < w && forall r :: r in rs ==> Located(r, w)
    ensures Count(rs, c, PRIMARY) + Count(rs, c, COMPREHENSIVE) + Count(rs, c, DRIP_AND_SHIP) == |rs|
  {
    if rs != [] {
      var k := |rs| - 1;
      assert forall r :: r in rs[..k] ==> r in rs;
      CountsPartition(rs[..k], c, w);
      assert rs[k] in rs;
      assert rs[k][c] in STRATEGIES;
    }
  }

  lemma Distribute(a: real, b: real, c: real, x: real)
    ensures a * x + b * x + c * x == (a + b + c) * x
  {
  }

  /** A whole set of `evals` evaluations makes 100 percent. */
  lemma WholeSet(evals: int)
    requires 0 < evals
    ensures (evals as real) * Multiplier(evals) == 100.0
  {
    var e := evals as real;
    calc {
      e * Multiplier(evals);
      e * (1.0 / e * 100.0);
      (e * (1.0 / e)) * 100.0;
      { assert e * (1.0 / e) == 1.0; }
      100.0;
    }
  }

  /** When a whole set of `evals` results is tallied, each column's
      percentages add up to 100. */
  lemma TalliedSumsToHundred(p: map<string, seq<real>>, rs: seq<seq<string>>, w: nat, evals: int)
    requires 0 < evals && |rs| == evals && Tallied(p, rs, w, evals)
    requires forall r :: r in rs ==> Located(r, w)
    ensures forall c :: 0 <= c < w ==> ColumnSum(p, c) == 100.0
  {
    forall c | 0 <= c < w
      ensures ColumnSum(p, c) == 100.0
    {
      ColumnSumToHundred(p, rs, w, evals, c);
    }
  }

  lemma ColumnSumToHundred(p: map<string, seq<real>>, rs: seq<seq<string>>, w: nat, evals: int, c: nat)
    requires 0 < evals && |rs| == evals && Tallied(p, rs, w, evals) && c < w
    requires forall r :: r in rs ==> Located(r, w)
    ensures ColumnSum(p, c) == 100.0
  {
    var x := Multiplier(evals);
    var a, b, d := Count(rs, c, PRIMARY), Count(rs, c, COMPREHENSIVE), Count(rs, c, DRIP_AND_SHIP);
    assert p[PRIMARY][c] == Repeat(a, x);
    assert p[COMPREHENSIVE][c] == Repeat(b, x);
    assert p[DRIP_AND_SHIP][c] == Repeat(d, x);
    CountsPartition(rs, c, w);
    SharesOfWholeSet(a, b, d, evals);
  }

  lemma RepeatThree(a: nat, b: nat, d: nat, x: real)
    ensures Repeat(a, x) + Repeat(b, x) + Repeat(d, x) == Repeat(a + b + d, x)
  {
    RepeatAdd(a, b, x);
    RepeatAdd(a + b, d, x);
  }

  /** Three counts that make up a whole set give percentages adding to 100. */
  lemma SharesOfWholeSet(a: nat, b: nat, d: nat, evals: int)
    requires 0 < evals && a + b + d == evals
    ensures Repeat(a, Multiplier(evals)) + Repeat(b, Multiplier(evals)) + Repeat(d, Multiplier(evals)) == 100.0
  {
    var x := Multiplier(evals);
    RepeatThree(a, b, d, x);
    RepeatIsProduct(evals, x);
    WholeSet(evals);
  }

  /** The tally of a set of results: percentages start at zero and each
      result adds one multiplier to its location in each of its columns. */
  method Tally(results: seq<seq<string>>, comparison: bool, evals: int) returns (percents: map<string, seq<real>>)
    requires 0 < evals
    requires forall r :: r in results ==> Located(r, Width(comparison))
    ensures Tallied(percents, results, Width(comparison), evals)
  {
    var w := Width(comparison);
    var zeros := if comparison then [0.0, 0.0, 0.0] else [0.0];
    percents := map s | s in STRATEGIES :: zeros;
    var multiplier := 1.0 / (evals as real) * 100.0;
    assert results[..0] == [];
    for i := 0 to |results|
      invariant Tallied(percents, results[..i], w, evals)
    {
      percents := TallyResult(percents, results[..i], results[i], comparison, evals, multiplier);
      OptimalStrategy.TakeNext(results, i);
    }
    assert results[..|results|] == results;
  }

  /** Adds one result to the tally: each of its locations gains one share in
      its own column. */
  method TallyResult(percents: map<string, seq<real>>, done: seq<seq<string>>, r: seq<string>, comparison: bool,
                     evals: int, multiplier: real)
    returns (percents': map<string, seq<real>>)
    requires 0 < evals && multiplier == Multiplier(evals) && Located(r, Width(comparison))
    requires Tallied(percents, done, Width(comparison), evals)
    ensures Tallied(percents', done + [r], Width(comparison), evals)
  {
    var w := Width(comparison);
    TalliedStart(percents, done, r, w, evals);
    BumpStep(percents, done, r, 0, w, evals);
    percents' := Bump(percents, r[0], 0, multiplier);
    if comparison {
      BumpStep(percents', done, r, 1, w, evals);
      percents' := Bump(percents', r[1], 1, multiplier);
      BumpStep(percents', done, r, 2, w, evals);
      percents' := Bump(percents', r[2], 2, multiplier);
    }
    TalliedEnd(percents', done, r, w, evals);
  }

  /** The evaluations numbered `from` up to but not including `to`. */
  function Draws(evaluate: int -> seq<string>, from: int, to: int): (r: seq<seq<string>>)
    decreases if from <= to then to - from else 0
    ensures |r| == if from <= to then to - from else 0
    ensures forall k :: 0 <= k < |r| ==> r[k] == evaluate(from + k)
  {
    if to <= from then [] else Draws(evaluate, from, to - 1) + [evaluate(to - 1)]
  }

  /** The state of the probabilistic model between argument sets and during
      one: the results gathered so far and their count. */
  class ProbabilisticModel {
    const comparison: bool
    const evalsPerSet: int
    var results: seq<seq<string>>
    var currentSetCounter: int

    /** The counter is the number of gathered results, never above one set,
        and every result names a strategy in each of its columns. */
    predicate Valid()
      reads this
    {
      && 0 < evalsPerSet
      && 0 <= currentSetCounter == |results| <= evalsPerSet
      && forall r :: r in results ==> Located(r, Width(comparison))
    }

    constructor (evalsPerSet: int, comparison: bool)
      requires 0 < evalsPerSet
      ensures Valid()
      ensures this.evalsPerSet == evalsPerSet && this.comparison == comparison
      ensures results == [] && currentSetCounter == 0
    {
      this.evalsPerSet := evalsPerSet;
      this.comparison := comparison;
      results := [];
      currentSetCounter := 0;
    }

    /** The percentages of the gathered results; the model is then ready for
        the next set. */
    method PrintProbabilisticModelOutput() returns (percents: map<string, seq<real>>)
      requires Valid()
      modifies this
      ensures Valid()
      ensures Tallied(percents, old(results), Width(comparison), evalsPerSet)
      ensures results == [] && currentSetCounter == 0
    {
      percents := Tally(results, comparison, evalsPerSet);
      results := [];
      currentSetCounter := 0;
    }

    /** Gathers evaluations until the set has `evalsPerSet` of them, where
        `evaluate(k)` is the outcome of the evaluation numbered `k`, then
        tallies the set; every column of the tally adds up to 100 percent. */
    method RunArgumentSet(evaluate: int -> seq<string>) returns (percents: map<string, seq<real>>)
      requires Valid()
      requires forall k :: Located(evaluate(k), Width(comparison))
      modifies this
      ensures Valid()
      ensures Tallied(percents, old(results) + Draws(evaluate, old(currentSetCounter), evalsPerSet),
                      Width(comparison), evalsPerSet)
      ensures forall c :: 0 <= c < Width(comparison) ==> ColumnSum(percents, c) == 100.0
      ensures results == [] && currentSetCounter == 0
    {
      while currentSetCounter < evalsPerSet
        invariant Valid()
        invariant old(currentSetCounter) <= currentSetCounter
        invariant results == old(results) + Draws(evaluate, old(currentSetCounter), currentSetCounter)
        decreases evalsPerSet - currentSetCounter
      {
        var r := evaluate(currentSetCounter);
        ghost var d := Draws(evaluate, old(currentSetCounter), currentSetCounter);
        currentSetCounter := currentSetCounter + 1;
        OptimalStrategy.ConcatAssoc(old(results), d, [r]);
        results := results + [r];
      }
      ghost var gathered := results;
      percents := PrintProbabilisticModelOutput();
      TalliedSumsToHundred(percents, gathered, Width(comparison), evalsPerSet);
    }
  }

  // ---------------------------------------------------------------------
  // The output name of a random-set run
  // ---------------------------------------------------------------------

  const OUTPUT_PREFIX: string := "output/random_sets/"
  const OUTPUT_SUFFIX: string := ".csv"

  /** The options after the sex, in the order they appear in the name; an
      option left random appears as its own name. */
  const NAMED_OPTIONS: seq<string> :=
    ["age", "RACE", "time_since_symptoms", "time_to_primary", "time_to_comprehensive", "transfer_time"]

  /** The parts joined with `sep` between consecutive ones. */
  function Join(parts: seq<string>, sep: char): string
  {
    if parts == [] then ""
    else if |parts| == 1 then parts[0]
    else parts[0] + [sep] + Join(parts[1..], sep)
  }

  /** The pieces of `s` between occurrences of `sep`. */
  function Split(s: string, sep: char): (parts: seq<string>)
    ensures 1 <= |parts|
  {
    if s == [] then [""]
    else
      var rest := Split(s[1..], sep);
      if s[0] == sep then [""] + rest else [[s[0]] + rest[0]] + rest[1..]
  }

  lemma {:induction false} SplitWithoutSep(a: string, sep: char)
    requires sep !in a
    ensures Split(a, sep) == [a]
  {
    if a != [] {
      SplitWithoutSep(a[1..], sep);
      assert [a[0]] + a[1..] == a;
    }
  }

  lemma {:induction false} SplitAfterFirst(a: string, b: string, sep: char)
    requires sep !in a
    ensures Split(a + [sep] + b, sep) == [a] + Split(b, sep)
  {
    var s := a + [sep] + b;
    if a == [] {
      assert s[1..] == b;
    } else {
      assert s[1..] == a[1..] + [sep] + b;
      SplitAfterFirst(a[1..], b, sep);
      assert [a[0]] + a[1..] == a;
    }
  }

  /** Splitting undoes joining when no part contains the separator. */
  lemma {:induction false} SplitJoin(parts: seq<string>, sep: char)
    requires 1 <= |parts|
    requires forall i :: 0 <= i < |parts| ==> sep !in parts[i]
    ensures Split(Join(parts, sep), sep) == parts
  {
    if |parts| == 1 {
      SplitWithoutSep(parts[0], sep);
    } else {
      SplitJoin(parts[1..], sep);
      SplitAfterFirst(parts[0], Join(parts[1..], sep), sep);
      assert [parts[0]] + parts[1..] == parts;
    }
  }

  /** The part for the sex option: both sexes when it is left random. */
  function SexPart(sex: Option<Sex>): string
  {
    match sex
    case None => "B"
    case Some(Male) => "M"
    case Some(Female) => "F"
  }

  /** The part for a named option: its rendered value, or its name. */
  function OptionPart(rendered: map<string, Option<string>>, name: string): string
    requires name in rendered
  {
    if rendered[name].Some? then rendered[name].value else name
  }

  /** The parts of the output name, one per option. */
  function OutNameParts(sex: Option<Sex>, rendered: map<string, Option<string>>): (parts: seq<string>)
    requires forall name :: name in NAMED_OPTIONS ==> name in rendered
    ensures |parts| == 1 + |NAMED_OPTIONS|
  {
    [SexPart(sex)] + seq(|NAMED_OPTIONS|, i requires 0 <= i < |NAMED_OPTIONS| => OptionPart(rendered, NAMED_OPTIONS[i]))
  }

  /** The file a random-set run writes to, for the sex option `sex` and the
      other options as already rendered strings (`None` for a random one). */
  method RandomOutName(sex: Option<Sex>, rendered: map<string, Option<string>>) returns (name: string)
    requires forall n :: n in NAMED_OPTIONS ==> n in rendered
    ensures name == OUTPUT_PREFIX + Join(OutNameParts(sex, rendered), '-') + OUTPUT_SUFFIX
  {
    var args: seq<string> := [];
    if sex.Some? {
      args := args + [if sex.value == Male then "M" else "F"];
    } else {
      args := args + ["B"];
    }
    var age := rendered[NAMED_OPTIONS[0]];
    args := args + [if age.Some? then age.value else NAMED_OPTIONS[0]];
    var race := rendered[NAMED_OPTIONS[1]];
    args := args + [if race.Some? then race.value else NAMED_OPTIONS[1]];
    ghost var parts := OutNameParts(sex, rendered);
    assert args == parts[..3] by {
      assert parts[0] == SexPart(sex) && parts[1] == OptionPart(rendered, NAMED_OPTIONS[0])
             && parts[2] == OptionPart(rendered, NAMED_OPTIONS[1]);
      assert args == [parts[0], parts[1], parts[2]];
    }
    var timeTypes := NAMED_OPTIONS[2..];
    for i := 0 to |timeTypes|
      invariant args == parts[..3 + i]
    {
      var time := rendered[timeTypes[i]];
      args := args + [if time.Some? then time.value else timeTypes[i]];
      OptimalStrategy.TakeNext(parts, 3 + i);
    }
    assert args == parts;
    name := OUTPUT_PREFIX + Join(args, '-') + OUTPUT_SUFFIX;
  }

  /** The name holds one part per option between the prefix and the suffix,
      and splitting its middle at '-' recovers them when no rendered value
      contains '-'. */
  lemma OutNameDecodes(sex: Option<Sex>, rendered: map<string, Option<string>>)
    requires forall n :: n in NAMED_OPTIONS ==> n in rendered
    requires forall n :: n in NAMED_OPTIONS && rendered[n].Some? ==> '-' !in rendered[n].value
    ensures Split(Join(OutNameParts(sex, rendered), '-'), '-') == OutNameParts(sex, rendered)
  {
    var parts := OutNameParts(sex, rendered);
    forall i | 0 <= i < |parts|
      ensures '-' !in parts[i]
    {
      if i > 0 {
        assert parts[i] == OptionPart(rendered, NAMED_OPTIONS[i - 1]);
      }
    }
    SplitJoin(parts, '-');
  }
}
