/** Outcomes of acute ischemic stroke (AIS) under the three transport
    strategies (ais_outcomes.py): the probability curves of a good outcome
    (modified Rankin Scale 0-2) and the per-patient model that decides which
    treatments are reachable in time and mixes the outcome probabilities.

    The logistic probability of a large vessel occlusion (LVO) and the
    exponential post-thrombectomy curve are numpy expressions; they enter the
    model as inputs (`pLvo` and `postEvtSuccess`). */
module AisOutcomes {
  import opened Numeric
  import opened Constants

  /** What a strategy yields for an ischemic patient: the probability of a
      good outcome and the shares treated with thrombolysis (tPA), with
      thrombectomy (EVT) and transferred between centers. */
  datatype Outcomes = Outcomes(pGood: real, pTpa: real, pEvt: real, pTransfer: real)

  /** One patient scenario; the times are minutes. */
  datatype Arguments = Arguments(
    sex: Sex,
    age: int,
    race: real,
    timeSinceSymptoms: real,
    timeToPrimary: real,
    timeToComprehensive: real,
    transferTime: real)

  // ---------------------------------------------------------------------
  // Probability curves
  // ---------------------------------------------------------------------

  /** Probability of a good outcome without reperfusion: a line in NIHSS
      down to severity 20, then a floor of 5%. */
  function PGoodOutcomeNoReperfusion(nihss: real): (p: real)
    ensures nihss >= 20.0 ==> p == 0.05
    ensures 0.05 <= p
    ensures 0.0 <= nihss ==> p <= 1.0071
  {
    if nihss >= 20.0 then 0.05 else -0.0464 * nihss + 1.0071
  }

  /** A more severe stroke never has a better chance without reperfusion. */
  lemma NoReperfusionNonIncreasing(a: real, b: real)
    requires a <= b
    ensures PGoodOutcomeNoReperfusion(b) <= PGoodOutcomeNoReperfusion(a)
  {
  }

  /** Share of patients reperfused by EVT. */
  const P_REPERFUSION_ENDOVASCULAR: real := 0.71

  function Min(a: real, b: real): real
  {
    if a <= b then a else b
  }

  function Max(a: real, b: real): real
  {
    if a >= b then a else b
  }

  /** Probability of early reperfusion by thrombolysis before groin puncture:
      grows linearly over the first 70 minutes up to 18%. */
  function PEarlyReperfusionThrombolysis(timeToGroin: real): (p: real)
    ensures p <= 0.18
    ensures timeToGroin >= 70.0 ==> p == 0.18
    ensures 0.0 <= timeToGroin ==> 0.0 <= p
  {
    0.18 * Min(70.0, timeToGroin) / 70.0
  }

  /** A longer wait for EVT never lowers the chance of early reperfusion. */
  lemma EarlyReperfusionNonDecreasing(a: real, b: real)
    requires a <= b
    ensures PEarlyReperfusionThrombolysis(a) <= PEarlyReperfusionThrombolysis(b)
  {
  }

  /** Probability of a good outcome after tPA for a patient without LVO,
      before the time adjustment: a quadratic in NIHSS. */
  function TpaBaseline(nihss: real): real
  {
    0.001 * nihss * nihss - 0.0615 * nihss + 1.0
  }

  /** Odds ratio of a good outcome from tPA given at `time` minutes. */
  function OddsRatioTpa(time: real): real
  {
    -0.0031 * time + 2.068
  }

  function Odds(p: real): real
    requires p != 1.0
  {
    p / (1.0 - p)
  }

  /** The two divisions of the odds adjustment have nonzero divisors (the
      program raises a division error otherwise). */
  predicate TpaOddsDefined(time: real, nihss: real)
  {
    time > TIME_LIMIT_TPA
    || (TpaBaseline(nihss) != 1.0 && Odds(TpaBaseline(nihss)) * OddsRatioTpa(time) != -1.0)
  }

  /** Within the tPA window the odds ratio is above one. */
  lemma OddsRatioAboveOne(time: real)
    requires 0.0 <= time <= TIME_LIMIT_TPA
    ensures 1.0 < OddsRatioTpa(time)
  {
  }

  /** The odds of a probability strictly between 0 and 1 are positive. */
  lemma OddsPositive(p: real)
    requires 0.0 < p < 1.0
    ensures 0.0 < Odds(p)
  {
    assert p / (1.0 - p) == p * (1.0 / (1.0 - p));
  }

  /** A baseline strictly between 0 and 1 can always be adjusted. */
  lemma {:induction false} TpaOddsDefinedForProbabilities(time: real, nihss: real)
    requires 0.0 <= time && 0.0 < TpaBaseline(nihss) < 1.0
    ensures TpaOddsDefined(time, nihss)
  {
    if time <= TIME_LIMIT_TPA {
      var b := TpaBaseline(nihss);
      OddsPositive(b);
      OddsRatioAboveOne(time);
      assert 0.0 < Odds(b) * OddsRatioTpa(time);
    }
  }

  /** Probability of a good outcome of a patient without LVO given tPA at
      `time`: past the tPA window no tPA is given and the baseline stands;
      inside it, the baseline odds are multiplied by the odds ratio. */
  function PGoodOutcomeAisNoLvoGotTpa(time: real, nihss: real): (p: real)
    requires TpaOddsDefined(time, nihss)
    ensures time > TIME_LIMIT_TPA ==> p == TpaBaseline(nihss)
  {
    var baselineProb := TpaBaseline(nihss);
    if time > TIME_LIMIT_TPA then baselineProb
    else
      var newOdds := Odds(TpaBaseline(nihss)) * OddsRatioTpa(time);
      newOdds / (1.0 + newOdds)
  }

  /** Inside the window the adjusted probability stays a probability, its
      odds are the baseline odds times the odds ratio, and it beats the
      baseline. */
  lemma {:induction false} TpaAdjustment(time: real, nihss: real)
    requires 0.0 <= time <= TIME_LIMIT_TPA && 0.0 < TpaBaseline(nihss) < 1.0
    ensures TpaOddsDefined(time, nihss)
    ensures var p := PGoodOutcomeAisNoLvoGotTpa(time, nihss);
      TpaBaseline(nihss) < p < 1.0 && Odds(p) == OddsRatioTpa(time) * Odds(TpaBaseline(nihss))
  {
    TpaOddsDefinedForProbabilities(time, nihss);
    var b := TpaBaseline(nihss);
    var o := Odds(b);
    var r := OddsRatioTpa(time);
    OddsRatioAboveOne(time);
    OddsPositive(b);
    assert o < o * r;
    var x := o * r;
    var p := x / (1.0 + x);
    assert p == PGoodOutcomeAisNoLvoGotTpa(time, nihss);
    assert 1.0 - p == 1.0 / (1.0 + x);
    assert Odds(p) == x;
    OddsToProbabilityIncreasing(o, x);
    assert b == o / (1.0 + o) by {
      assert o * (1.0 - b) == b;
    }
  }

  /** Converting odds back to a probability is strictly increasing. */
  lemma OddsToProbabilityIncreasing(x: real, y: real)
    requires 0.0 <= x < y
    ensures x / (1.0 + x) < y / (1.0 + y) < 1.0
  {
    var a, b := 1.0 + x, 1.0 + y;
    assert x / a == 1.0 - 1.0 / a;
    assert y / b == 1.0 - 1.0 / b;
    ReciprocalDecreasing(a, b);
  }

  lemma ReciprocalDecreasing(a: real, b: real)
    requires 0.0 < a < b
    ensures 0.0 < 1.0 / b < 1.0 / a
  {
    assert (1.0 / b) * b == 1.0;
    assert (1.0 / a) * a == 1.0;
    assert (1.0 / b) * a < (1.0 / b) * b;
  }

  /** Earlier tPA is never worse. */
  lemma {:induction false} TpaEarlierIsBetter(t1: real, t2: real, nihss: real)
    requires 0.0 <= t1 <= t2 <= TIME_LIMIT_TPA && 0.0 < TpaBaseline(nihss) < 1.0
    ensures TpaOddsDefined(t1, nihss) && TpaOddsDefined(t2, nihss)
    ensures PGoodOutcomeAisNoLvoGotTpa(t2, nihss) <= PGoodOutcomeAisNoLvoGotTpa(t1, nihss)
  {
    TpaOddsDefinedForProbabilities(t1, nihss);
    TpaOddsDefinedForProbabilities(t2, nihss);
    var o := Odds(TpaBaseline(nihss));
    OddsPositive(TpaBaseline(nihss));
    var r1, r2 := OddsRatioTpa(t1), OddsRatioTpa(t2);
    OddsRatioAboveOne(t2);
    if t1 < t2 {
      assert r2 < r1;
      ScaleStrictlyIncreasing(o, r2, r1);
      OddsToProbabilityIncreasing(o * r2, o * r1);
    }
  }

  lemma ScaleMonotone(k: real, x: real, y: real)
    requires 0.0 <= k && x <= y
    ensures x * k <= y * k
  {
  }

  lemma ScaleStrictlyIncreasing(k: real, x: real, y: real)
    requires 0.0 < k && x < y
    ensures k * x < k * y
  {
  }

  /** What reperfusion by EVT adds for one LVO patient. */
  function EvtGain(baseline: real, post: real): real
  {
    P_REPERFUSION_ENDOVASCULAR * (Max(post, baseline) - baseline)
  }

  /** Probability of a good outcome of the whole ischemic cohort: the
      non-LVO share and the unreperfused LVO share keep `baseline`; when EVT
      is done (`postEvt` present), the reperfused LVO share gets the better
      of the post-EVT probability and `baseline`. */
  function PGoodMixture(pLvo: real, baseline: real, postEvt: Option<real>): (p: real)
    ensures postEvt.None? ==> p == baseline
    ensures postEvt.Some? ==> p == baseline + pLvo * EvtGain(baseline, postEvt.value)
  {
    match postEvt
    case None => (1.0 - pLvo) * baseline + pLvo * baseline
    case Some(post) =>
      (1.0 - pLvo) * baseline
      + pLvo * (1.0 - P_REPERFUSION_ENDOVASCULAR) * baseline
      + pLvo * P_REPERFUSION_ENDOVASCULAR * Max(post, baseline)
  }

  /** With an LVO share in [0,1] the mixture is never below the baseline:
      the reperfused share takes the better of the two curves. */
  lemma PGoodMixtureAtLeastBaseline(pLvo: real, baseline: real, postEvt: Option<real>)
    requires 0.0 <= pLvo <= 1.0
    ensures baseline <= PGoodMixture(pLvo, baseline, postEvt)
  {
    if postEvt.Some? {
      ShareOfGain(baseline, 0.0, pLvo, EvtGain(baseline, postEvt.value));
    }
  }

  /** With probabilities in range, the mixture is a probability, and a
      larger LVO share never lowers it. */
  lemma PGoodMixtureBounds(pLvo: real, q: real, baseline: real, post: real)
    requires 0.0 <= pLvo <= q <= 1.0 && 0.0 <= baseline <= 1.0 && post <= 1.0
    ensures 0.0 <= PGoodMixture(pLvo, baseline, Some(post)) <= 1.0
    ensures PGoodMixture(pLvo, baseline, Some(post)) <= PGoodMixture(q, baseline, Some(post))
  {
    var gain := EvtGain(baseline, post);
    assert 0.0 <= gain <= 1.0 - baseline;
    assert PGoodMixture(pLvo, baseline, Some(post)) == baseline + pLvo * gain;
    assert PGoodMixture(q, baseline, Some(post)) == baseline + q * gain;
    ShareOfGain(baseline, 0.0, pLvo, gain);
    ShareOfGain(baseline, pLvo, q, gain);
    ShareOfGain(baseline, q, 1.0, gain);
    assert baseline + pLvo * gain <= baseline + q * gain <= baseline + 1.0 * gain <= 1.0;
    assert PGoodMixture(pLvo, baseline, Some(post)) <= PGoodMixture(q, baseline, Some(post)) <= 1.0;
  }

  lemma ShareOfGain(base: real, x: real, y: real, gain: real)
    requires 0.0 <= gain && x <= y
    ensures base + x * gain <= base + y * gain
  {
    ScaleMonotone(gain, x, y);
  }

  // ---------------------------------------------------------------------
  // The per-patient model
  // ---------------------------------------------------------------------

  /** An EVT time counts only when present and nonzero (the program tests
      its truthiness). */
  predicate EvtGiven(onsetToEvt: Option<real>)
  {
    onsetToEvt.Some? && onsetToEvt.value != 0.0
  }

  class IschemicModel {
    const sex: Sex
    const age: int
    const race: real
    const nihss: real
    const onsetNeedlePrimary: real
    const onsetNeedleComprehensive: real
    const onsetEvtNoship: real
    const onsetEvtShip: real
    const pLvo: real
    /** Probability of a good outcome after successful EVT at a time and NIHSS. */
    const postEvtSuccess: (real, real) -> real
    const modelIsNecessary: bool
    /** Set only when no treatment can be reached in time. */
    const cutoffLocation: Option<string>

    /** The model of `args` under the treatment delays `times`. */
    constructor (args: Arguments, times: Times, pLvo: real, postEvtSuccess: (real, real) -> real)
      ensures sex == args.sex && age == args.age && race == args.race
      ensures nihss == RaceToNihss(args.race)
      ensures onsetNeedlePrimary == args.timeSinceSymptoms + args.timeToPrimary + times.doorNeedlePrimary
      ensures onsetNeedleComprehensive
           == args.timeSinceSymptoms + args.timeToComprehensive + times.doorNeedleComprehensive
      ensures onsetEvtNoship == args.timeSinceSymptoms + args.timeToComprehensive + times.doorToIntraArterial
      ensures onsetEvtShip
           == args.timeSinceSymptoms + args.timeToPrimary + times.doorNeedlePrimary
              + args.transferTime + times.transferToIntraArterial
      ensures this.pLvo == pLvo && this.postEvtSuccess == postEvtSuccess
      ensures modelIsNecessary == IsThereAnOption()
      ensures cutoffLocation == if modelIsNecessary then None else Some(NoTxWhereToGo(args.race))
      ensures Valid()
    {
      sex := args.sex;
      age := args.age;
      race := args.race;
      nihss := RaceToNihss(args.race);
      var onsetNeedlePrimary := args.timeSinceSymptoms + args.timeToPrimary + times.doorNeedlePrimary;
      this.onsetNeedlePrimary := onsetNeedlePrimary;
      onsetNeedleComprehensive :=
        args.timeSinceSymptoms + args.timeToComprehensive + times.doorNeedleComprehensive;
      var onsetEvtNoship := args.timeSinceSymptoms + args.timeToComprehensive + times.doorToIntraArterial;
      this.onsetEvtNoship := onsetEvtNoship;
      onsetEvtShip := args.timeSinceSymptoms + args.timeToPrimary + times.doorNeedlePrimary
                      + args.transferTime + times.transferToIntraArterial;
      this.pLvo := pLvo;
      this.postEvtSuccess := postEvtSuccess;
      var modelIsNecessary := !(onsetNeedlePrimary > TIME_LIMIT_TPA && onsetEvtNoship > TIME_LIMIT_EVT);
      this.modelIsNecessary := modelIsNecessary;
      cutoffLocation := if modelIsNecessary then None else Some(NoTxWhereToGo(args.race));
    }

    /** What the constructor establishes: the model is needed exactly when some
        treatment is reachable, and otherwise the cutoff location is set. */
    predicate Valid()
    {
      && modelIsNecessary == IsThereAnOption()
      && cutoffLocation == if modelIsNecessary then None else Some(NoTxWhereToGo(race))
    }

    /** Whether some treatment is reachable: false exactly when tPA at the
        primary center and EVT at the comprehensive center are both too late. */
    function IsThereAnOption(): (optionExists: bool)
      ensures !optionExists <==> onsetNeedlePrimary > TIME_LIMIT_TPA && onsetEvtNoship > TIME_LIMIT_EVT
    {
      !(onsetNeedlePrimary > TIME_LIMIT_TPA && onsetEvtNoship > TIME_LIMIT_EVT)
    }

    /** The probability of a good outcome with tPA at `onsetToTpa` and EVT at
        `onsetToEvt`, if any. */
    method GetPGood(onsetToTpa: real, onsetToEvt: Option<real>) returns (pGood: real)
      requires TpaOddsDefined(onsetToTpa, nihss)
      ensures pGood == PGoodMixture(pLvo, PGoodOutcomeAisNoLvoGotTpa(onsetToTpa, nihss),
                                    if EvtGiven(onsetToEvt) then Some(postEvtSuccess(onsetToEvt.value, nihss))
                                    else None)
    {
      pGood := 0.0;
      var baselinePGood := PGoodOutcomeAisNoLvoGotTpa(onsetToTpa, nihss);
      pGood := pGood + (1.0 - pLvo) * baselinePGood;
      var pReperfused := 0.0;
      var pNotReperfused := pLvo;
      if EvtGiven(onsetToEvt) {
        pReperfused := pLvo * P_REPERFUSION_ENDOVASCULAR;
        pNotReperfused := pNotReperfused - pReperfused;
      }
      pGood := pGood + pNotReperfused * baselinePGood;
      if EvtGiven(onsetToEvt) {
        var pGoodPostEvt := postEvtSuccess(onsetToEvt.value, nihss);
        var higherPGood := pGoodPostEvt;
        if higherPGood < baselinePGood {
          higherPGood := baselinePGood;
        }
        pGood := pGood + pReperfused * higherPGood;
      }
    }

    /** Going to the primary center: everyone gets tPA (its effect already
        depends on the time), nobody gets EVT or a transfer. */
    predicate IsPrimaryOutcome(o: Outcomes)
      requires TpaOddsDefined(onsetNeedlePrimary, nihss)
    {
      o == Outcomes(PGoodOutcomeAisNoLvoGotTpa(onsetNeedlePrimary, nihss), 1.0, 0.0, 0.0)
    }

    /** Going to the comprehensive center: tPA only strictly inside the tPA
        window, EVT for the LVO share, no transfer. */
    predicate IsComprehensiveOutcome(o: Outcomes)
      requires TpaOddsDefined(onsetNeedleComprehensive, nihss)
    {
      && o.pTpa == (if onsetNeedleComprehensive < TIME_LIMIT_TPA then 1.0 else 0.0)
      && o.pEvt == pLvo && o.pTransfer == 0.0
      && o.pGood == PGoodMixture(pLvo, PGoodOutcomeAisNoLvoGotTpa(onsetNeedleComprehensive, nihss),
                                 if onsetEvtNoship != 0.0 then Some(postEvtSuccess(onsetEvtNoship, nihss))
                                 else None)
    }

    /** Drip and ship: tPA at the primary center, then everyone is
        transferred and the LVO share gets EVT. */
    predicate IsShipOutcome(o: Outcomes)
      requires TpaOddsDefined(onsetNeedlePrimary, nihss)
    {
      && o.pTpa == 1.0 && o.pTransfer == 1.0 && o.pEvt == pLvo
      && o.pGood == PGoodMixture(pLvo, PGoodOutcomeAisNoLvoGotTpa(onsetNeedlePrimary, nihss),
                                 if onsetEvtShip != 0.0 then Some(postEvtSuccess(onsetEvtShip, nihss))
                                 else None)
    }

    method RunPrimaryCenter() returns (o: Outcomes)
      requires TpaOddsDefined(onsetNeedlePrimary, nihss)
      ensures IsPrimaryOutcome(o)
    {
      var pGood := GetPGood(onsetNeedlePrimary, None);
      o := Outcomes(pGood, 1.0, 0.0, 0.0);
    }

    method RunComprehensiveCenter() returns (o: Outcomes)
      requires TpaOddsDefined(onsetNeedleComprehensive, nihss)
      ensures IsComprehensiveOutcome(o)
    {
      var pTransfer := 0.0;
      var pTpa := 0.0;
      var pEvt := pLvo;
      if onsetNeedleComprehensive < TIME_LIMIT_TPA {
        pTpa := 1.0;
      }
      var pGood := GetPGood(onsetNeedleComprehensive, Some(onsetEvtNoship));
      o := Outcomes(pGood, pTpa, pEvt, pTransfer);
    }

    /** Drip and ship is unavailable (`None`) exactly when EVT after the
        transfer would come too late. */
    method RunPrimaryThenShip() returns (r: Option<Outcomes>)
      requires onsetEvtShip <= TIME_LIMIT_EVT ==> TpaOddsDefined(onsetNeedlePrimary, nihss)
      ensures r.None? <==> onsetEvtShip > TIME_LIMIT_EVT
      ensures r.Some? ==> IsShipOutcome(r.value)
    {
      var pTpa := 0.0;
      var pEvt := 0.0;
      var pTransfer := 1.0;
      if onsetEvtShip > TIME_LIMIT_EVT {
        return None;
      }
      pTpa := 1.0;
      pEvt := pLvo;
      var pGood := GetPGood(onsetNeedlePrimary, Some(onsetEvtShip));
      r := Some(Outcomes(pGood, pTpa, pEvt, pTransfer));
    }

    /** The outcomes of the strategy named `key`; `None` for an unknown name
        and for an unavailable drip and ship. */
    method GetAisOutcomes(key: string) returns (r: Option<Outcomes>)
      requires key == "Primary" ==> TpaOddsDefined(onsetNeedlePrimary, nihss)
      requires key == "Comprehensive" ==> TpaOddsDefined(onsetNeedleComprehensive, nihss)
      requires key == "Drip and Ship" && onsetEvtShip <= TIME_LIMIT_EVT ==>
                 TpaOddsDefined(onsetNeedlePrimary, nihss)
      ensures key == "Primary" ==> r.Some? && IsPrimaryOutcome(r.value)
      ensures key == "Comprehensive" ==> r.Some? && IsComprehensiveOutcome(r.value)
      ensures key == "Drip and Ship" ==>
                (r.None? <==> onsetEvtShip > TIME_LIMIT_EVT) && (r.Some? ==> IsShipOutcome(r.value))
      ensures key != "Primary" && key != "Comprehensive" && key != "Drip and Ship" ==> r.None?
    {
      r := None;
      if key == "Primary" {
        var o := RunPrimaryCenter();
        r := Some(o);
      } else if key == "Comprehensive" {
        var o := RunComprehensiveCenter();
        r := Some(o);
      } else if key == "Drip and Ship" {
        r := RunPrimaryThenShip();
      }
    }
  }
}
