// The what-if page: month-on-month growth rates of the monthly totals, a
// projection of Month 6 with a confidence band, three growth scenarios
// and the campaign ROI each scenario would give.
module WhatIf {
  import opened Records
  import opened Stats
  import opened Grouping
  import opened Kpi

  /** `(current - previous) / previous`, undefined (inf or nan) when the
      previous total is zero. */
  function GrowthRate(previous: real, current: real): (r: Ratio)
    ensures r.Defined? <==> previous != 0.0
    ensures r.Defined? ==> previous * (1.0 + r.value) == current
  {
    if previous == 0.0 then Undefined
    else
      var q := (current - previous) / previous;
      assert previous * q == current - previous;
      Defined(q)
  }

  /** The four growth rates of rows 1 to 4 against the row before. Fewer
      than five rows is an IndexError; a zero total among rows 0 to 3 makes
      a rate infinite or nan, which the page carries on with and which
      poisons every figure after it. */
  function GrowthRatesOf(totals: seq<real>): (r: Result<seq<real>>)
    ensures |totals| < 5 ==> r == Err(TooFewPeriods)
    ensures |totals| >= 5 ==> (r.Err? <==> exists i :: 0 <= i < 4 && totals[i] == 0.0)
    ensures |totals| >= 5 && r.Err? ==> r.error == DivisionByZero
    ensures r.Ok? ==> |r.value| == 4 && forall i :: 0 <= i < 4 ==> totals[i] * (1.0 + r.value[i]) == totals[i + 1]
  {
    if |totals| < 5 then Err(TooFewPeriods)
    else if exists i :: 0 <= i < 4 && totals[i] == 0.0 then Err(DivisionByZero)
    else Ok(seq(4, i requires 0 <= i < 4 => GrowthRate(totals[i], totals[i + 1]).value))
  }

  /** The loop of the page: for rows 1 to 4 it reads the row and the one
      before it (positionally) and appends their growth rate. */
  method GrowthRates(totals: seq<real>) returns (r: Result<seq<real>>)
    ensures r == GrowthRatesOf(totals)
  {
    var steps: seq<Ratio> := [];
    for i := 1 to 5
      invariant |steps| == i - 1
      invariant i == 1 || i <= |totals|
      invariant forall k :: 0 <= k < i - 1 ==> steps[k] == GrowthRate(totals[k], totals[k + 1])
    {
      if i >= |totals| {
        return Err(TooFewPeriods);
      }
      steps := steps + [GrowthRate(totals[i - 1], totals[i])];
    }
    if exists k :: 0 <= k < 4 && steps[k].Undefined? {
      var k :| 0 <= k < 4 && steps[k].Undefined?;
      assert steps[k] == GrowthRate(totals[k], totals[k + 1]);
      return Err(DivisionByZero);
    }
    forall k | 0 <= k < 4 ensures totals[k] != 0.0 && steps[k].value == GrowthRate(totals[k], totals[k + 1]).value {
      assert steps[k] == GrowthRate(totals[k], totals[k + 1]);
    }
    r := Ok(seq(4, k requires 0 <= k < 4 => steps[k].value));
    assert r.value == seq(4, k requires 0 <= k < 4 => GrowthRate(totals[k], totals[k + 1]).value);
  }

  /** The Month 6 projection and its band. */
  datatype Projection = Projection(expected: real, lower: real, upper: real)

  /** The last total grown at the mean rate, with a band of `z` standard
      deviations of the rates (population form) times the last total on
      either side. `std` is the non-negative square root of the population
      variance; `z` is the normal quantile of the confidence level. */
  function Project(last: real, rates: seq<real>, std: real, z: real): (p: Projection)
    requires rates != []
    requires std >= 0.0 && Square(std) == PopVariance(rates)
    requires z > 0.0
    ensures p.expected - last == last * Mean(rates)
    ensures p.upper - p.expected == p.expected - p.lower == z * std * last
    ensures last >= 0.0 ==> p.lower <= p.expected <= p.upper
  {
    var expected := last * (1.0 + Mean(rates));
    var margin := z * (std * last);
    MarginSign(z, std, last);
    Projection(expected, expected - margin, expected + margin)
  }

  lemma MarginSign(z: real, std: real, last: real)
    requires z > 0.0 && std >= 0.0
    ensures last >= 0.0 ==> z * (std * last) >= 0.0
  {
    if last >= 0.0 && std > 0.0 && last > 0.0 {
      ProductPositive(std, last);
      ProductPositive(z, std * last);
    }
  }

  /** With a positive last total the band is a single point exactly when
      all four months grew at the same rate. */
  lemma BandCollapses(last: real, rates: seq<real>, std: real, z: real)
    requires rates != []
    requires std >= 0.0 && Square(std) == PopVariance(rates)
    requires z > 0.0 && last > 0.0
    ensures Project(last, rates, std, z).lower == Project(last, rates, std, z).upper <==>
            forall i :: 0 <= i < |rates| ==> rates[i] == Mean(rates)
  {
    PopVarianceZeroIffConstant(rates);
    var p := Project(last, rates, std, z);
    if std > 0.0 {
      ProductPositive(z, std);
      ProductPositive(z * std, last);
      assert p.upper - p.lower == 2.0 * (z * std * last);
    }
  }

  /** The pessimistic slider: -50 to 0 percent in steps of 5. */
  predicate PessimisticSetting(s: int)
  {
    -50 <= s <= 0 && s % 5 == 0
  }

  /** The optimistic slider: 0 to 50 percent in steps of 5. */
  predicate OptimisticSetting(s: int)
  {
    0 <= s <= 50 && s % 5 == 0
  }

  datatype Scenario = Scenario(name: string, month6: real)

  /** The three Month 6 scenarios, in the page's order: the last total
      moved by the pessimistic percentage, the projection, and the last
      total moved by the optimistic percentage. */
  function Scenarios(last: real, expected: real, pessimistic: int, optimistic: int): (sc: seq<Scenario>)
    requires PessimisticSetting(pessimistic) && OptimisticSetting(optimistic)
    ensures |sc| == 3
    ensures sc[0].name == "Pessimistic" && sc[1] == Scenario("Expected", expected) && sc[2].name == "Optimistic"
    ensures last != 0.0 ==> PctChange(sc[0].month6, last) == Defined(pessimistic as real)
    ensures last != 0.0 ==> PctChange(sc[2].month6, last) == Defined(optimistic as real)
  {
    var low := last * (1.0 + pessimistic as real / 100.0);
    var high := last * (1.0 + optimistic as real / 100.0);
    ScaledChange(last, pessimistic as real);
    ScaledChange(last, optimistic as real);
    [Scenario("Pessimistic", low), Scenario("Expected", expected), Scenario("Optimistic", high)]
  }

  lemma ScaledChange(last: real, pct: real)
    ensures last != 0.0 ==> PctChange(last * (1.0 + pct / 100.0), last) == Defined(pct)
  {
    if last != 0.0 {
      ScaledChangeNonzero(last, pct);
    }
  }

  lemma ScaledChangeNonzero(last: real, pct: real)
    requires last != 0.0
    ensures PctChange(last * (1.0 + pct / 100.0), last) == Defined(pct)
  {
    var v := PctChange(last * (1.0 + pct / 100.0), last).value;
    assert last * (1.0 + v / 100.0) == last * (1.0 + pct / 100.0);
    assert last * (v / 100.0 - pct / 100.0) == 0.0;
  }

  /** With a non-negative last total the pessimistic scenario lies between
      half of it and it, and the optimistic one between it and one and a
      half times it. */
  lemma ScenariosOrdered(last: real, expected: real, pessimistic: int, optimistic: int)
    requires PessimisticSetting(pessimistic) && OptimisticSetting(optimistic)
    requires last >= 0.0
    ensures var sc := Scenarios(last, expected, pessimistic, optimistic);
      last / 2.0 <= sc[0].month6 <= last <= sc[2].month6 <= last * 1.5
  {
    var sc := Scenarios(last, expected, pessimistic, optimistic);
    var lo, hi := 1.0 + pessimistic as real / 100.0, 1.0 + optimistic as real / 100.0;
    assert 0.5 <= lo <= 1.0 && 1.0 <= hi <= 1.5;
    assert sc[0].month6 == last * lo && sc[2].month6 == last * hi;
    ProductNonnegative(last, lo - 0.5);
    ProductNonnegative(last, 1.0 - lo);
    ProductNonnegative(last, hi - 1.0);
    ProductNonnegative(last, 1.5 - hi);
  }

  /** The campaign ROI if Month 6 also counts: the lift of Month 3, of
      Months 4 and 5 and of the scenario's Month 6 over the baseline. */
  function ScenarioRoi(p: Periods, month6: real): (r: real)
    ensures CampaignCost * (1.0 + r / 100.0) == TotalIncremental(p) + (month6 - Baseline(p))
  {
    var b := Baseline(p);
    var incremental := (p.m3.total - b) + ((p.m4.total - b) + (p.m5.total - b)) + (month6 - b);
    Roi(incremental)
  }

  /** The scenario ROI rises strictly with the Month 6 value, and it beats
      the campaign's own ROI exactly when Month 6 beats the baseline. */
  lemma ScenarioRoiMonotone(p: Periods, a: real, b: real)
    ensures a < b <==> ScenarioRoi(p, a) < ScenarioRoi(p, b)
    ensures ScenarioRoi(p, a) > Roi(TotalIncremental(p)) <==> a > Baseline(p)
  {
    RoiStrictlyIncreasing(TotalIncremental(p) + (a - Baseline(p)), TotalIncremental(p) + (b - Baseline(p)));
    RoiStrictlyIncreasing(TotalIncremental(p), TotalIncremental(p) + (a - Baseline(p)));
  }

  /** The page's three scenarios carry distinct names, so none of them
      overwrites another in the ROI dict. */
  lemma ScenarioNamesDistinct(last: real, expected: real, pessimistic: int, optimistic: int)
    requires PessimisticSetting(pessimistic) && OptimisticSetting(optimistic)
    ensures var sc := Scenarios(last, expected, pessimistic, optimistic);
      forall i, j :: 0 <= i < j < |sc| ==> sc[i].name != sc[j].name
  {
    var sc := Scenarios(last, expected, pessimistic, optimistic);
    assert sc[0].name[0] == 'P' && sc[1].name[0] == 'E' && sc[2].name[0] == 'O';
  }

  /** The ROI of each scenario, keyed by scenario name; the names are the
      keys of a dict, so they are distinct. */
  method ScenarioRois(p: Periods, sc: seq<Scenario>) returns (rois: map<string, real>)
    requires forall i, j :: 0 <= i < j < |sc| ==> sc[i].name != sc[j].name
    ensures rois.Keys == set s | s in sc :: s.name
    ensures forall i :: 0 <= i < |sc| ==> rois[sc[i].name] == ScenarioRoi(p, sc[i].month6)
  {
    rois := map[];
    for i := 0 to |sc|
      invariant rois.Keys == set k | 0 <= k < i :: sc[k].name
      invariant forall k :: 0 <= k < i ==> rois[sc[k].name] == ScenarioRoi(p, sc[k].month6)
    {
      rois := rois[sc[i].name := ScenarioRoi(p, sc[i].month6)];
    }
    assert forall s :: s in sc <==> exists k :: 0 <= k < |sc| && sc[k] == s;
  }

  /** On the page's three scenarios the pessimistic ROI never exceeds the
      optimistic one (for a non-negative last total); the expected ROI is
      not bounded by them, as the mean growth is not. */
  lemma ScenarioRoisOrdered(p: Periods, last: real, expected: real, pessimistic: int, optimistic: int)
    requires PessimisticSetting(pessimistic) && OptimisticSetting(optimistic)
    requires last >= 0.0
    ensures var sc := Scenarios(last, expected, pessimistic, optimistic);
      ScenarioRoi(p, sc[0].month6) <= ScenarioRoi(p, sc[2].month6)
  {
    var sc := Scenarios(last, expected, pessimistic, optimistic);
    ScenariosOrdered(last, expected, pessimistic, optimistic);
    ScenarioRoiMonotone(p, sc[0].month6, sc[2].month6);
  }
}
