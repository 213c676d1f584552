// The alternative-timing heuristic of the campaign page: the mean monthly
// growth of the totals is compounded from the baseline up to Month 6, the
// campaign-month lift is applied there, and the projected lift is set
// against the lift the campaign actually achieved.
module Timing {
  import opened Records
  import opened Stats
  import opened Grouping
  import opened Kpi

  /** One entry of `pct_change()`: `cur / prev - 1`. A zero previous value
      gives nan when the current one is zero too (skipped by the mean) and
      an infinity otherwise. */
  datatype StepChange = Change(rate: real) | Skipped | Unbounded

  function StepChangeOf(prev: real, cur: real): (c: StepChange)
    ensures c.Change? <==> prev != 0.0
    ensures c.Change? ==> prev * (1.0 + c.rate) == cur
  {
    if prev != 0.0 then
      assert prev * (cur / prev) == cur;
      Change(cur / prev - 1.0)
    else if cur == 0.0 then Skipped
    else Unbounded
  }

  /** The changes between consecutive values (the leading nan of
      `pct_change` is left out: the mean skips it). */
  function StepChanges(ts: seq<real>): (cs: seq<StepChange>)
    ensures |cs| == if ts == [] then 0 else |ts| - 1
    ensures forall i :: 0 <= i < |cs| ==> cs[i] == StepChangeOf(ts[i], ts[i + 1])
  {
    if |ts| < 2 then [] else seq(|ts| - 1, i requires 0 <= i < |ts| - 1 => StepChangeOf(ts[i], ts[i + 1]))
  }

  /** The finite changes, in order; nan entries are dropped. */
  function Rates(cs: seq<StepChange>): (rs: seq<real>)
    ensures |rs| <= |cs|
  {
    if cs == [] then []
    else if cs[0].Change? then [cs[0].rate] + Rates(cs[1..])
    else Rates(cs[1..])
  }

  lemma {:induction false} RatesAllFinite(cs: seq<StepChange>)
    requires forall i :: 0 <= i < |cs| ==> cs[i].Change?
    ensures |Rates(cs)| == |cs|
    ensures forall i :: 0 <= i < |cs| ==> Rates(cs)[i] == cs[i].rate
  {
    if cs != [] {
      RatesAllFinite(cs[1..]);
    }
  }

  /** No change in `cs` is infinite. */
  predicate NoneUnbounded(cs: seq<StepChange>)
  {
    forall i :: 0 <= i < |cs| ==> !cs[i].Unbounded?
  }

  /** The mean of the finite changes in `cs`; undefined when a change is
      infinite or no change is finite. */
  function MeanOfChanges(cs: seq<StepChange>): (g: Ratio)
    ensures g.Defined? <==> NoneUnbounded(cs) && Rates(cs) != []
    ensures g.Defined? ==> Rates(cs) != [] && g.value == Mean(Rates(cs))
  {
    if !NoneUnbounded(cs) then Undefined
    else
      var rs := Rates(cs);
      if rs == [] then Undefined else Defined(Mean(rs))
  }

  /** `Series.pct_change().mean()`: the mean of the finite changes; undefined
      when a change is infinite or no change is finite. */
  function MeanStepGrowth(ts: seq<real>): (g: Ratio)
    ensures g.Defined? <==> NoneUnbounded(StepChanges(ts)) && Rates(StepChanges(ts)) != []
    ensures g.Defined? ==> g.value == Mean(Rates(StepChanges(ts)))
  {
    MeanOfChanges(StepChanges(ts))
  }

  /** `x` grown by the factor 1 + r. */
  function Grown(x: real, r: real): real
  {
    x * (1.0 + r)
  }

  lemma CancelFactor(a: real, b: real)
    requires a != 0.0
    ensures (a * b) / a == b
  {
    var x := (a * b) / a;
    assert a * x == a * b;
    assert a * (x - b) == 0.0;
  }

  /** A value that grew by the factor 1 + r from a non-zero one changed at rate r. */
  lemma StepOfGrowth(prev: real, cur: real, r: real)
    requires prev != 0.0 && cur == Grown(prev, r)
    ensures StepChangeOf(prev, cur) == Change(r)
  {
    CancelFactor(prev, 1.0 + r);
  }

  /** Each step of a series growing by the factor 1 + r is the rate r. */
  lemma ConstantSteps(ts: seq<real>, r: real)
    requires forall i :: 0 <= i < |ts| ==> ts[i] != 0.0
    requires forall i, j :: 0 <= i && j == i + 1 < |ts| ==> ts[j] == Grown(ts[i], r)
    ensures forall i :: 0 <= i < |StepChanges(ts)| ==> StepChanges(ts)[i] == Change(r)
  {
    var cs := StepChanges(ts);
    forall i | 0 <= i < |cs| ensures cs[i] == Change(r) {
      var j := i + 1;
      assert ts[j] == Grown(ts[i], r);
      StepOfGrowth(ts[i], ts[j], r);
    }
  }

  /** Totals that grow by the same factor every month have exactly that
      factor's rate as their mean step growth. */
  lemma ConstantGrowth(ts: seq<real>, r: real)
    requires |ts| >= 2
    requires forall i :: 0 <= i < |ts| ==> ts[i] != 0.0
    requires forall i, j :: 0 <= i && j == i + 1 < |ts| ==> ts[j] == Grown(ts[i], r)
    ensures MeanStepGrowth(ts) == Defined(r)
  {
    var cs := StepChanges(ts);
    ConstantSteps(ts, r);
    assert forall i :: 0 <= i < |cs| ==> !cs[i].Unbounded?;
    RatesAllFinite(cs);
    var rs := Rates(cs);
    assert rs[0] == r;
    MeanBounds(rs, r, r);
  }

  /** The Total Deposits column of a groupby result, in row order. */
  function Totals(table: seq<Row>): (ts: seq<real>)
    ensures |ts| == |table|
    ensures forall i :: 0 <= i < |table| ==> ts[i] == table[i].agg.total
  {
    seq(|table|, i requires 0 <= i < |table| => table[i].agg.total)
  }

  function Pow(x: real, n: nat): real
  {
    if n == 0 then 1.0 else x * Pow(x, n - 1)
  }

  lemma {:induction false} PowOne(n: nat)
    ensures Pow(1.0, n) == 1.0
  {
    if n > 0 {
      PowOne(n - 1);
    }
  }

  datatype Advice = Postpone | Keep

  /** The projected Month 6 lift (undefined when the growth is or the
      baseline is zero) and the advice drawn from it. */
  datatype TimingResult = TimingResult(projectedImpact: Ratio, advice: Advice)

  /** The heuristic: the baseline compounded five times at the monthly
      growth, with the campaign's relative lift applied on top. The
      projected lift is the campaign-month lift scaled by the compounded
      growth; postponing is advised exactly when that beats the lift the
      campaign actually achieved. A nan projection compares false, so an
      undefined projection keeps Month 3. */
  function AlternativeTiming(p: Periods, growth: Ratio): (t: TimingResult)
    ensures t.projectedImpact.Defined? <==> growth.Defined? && Baseline(p) != 0.0
    ensures t.projectedImpact.Defined? ==>
      t.projectedImpact.value == Pow(1.0 + growth.value, 5) * IncrementalCampaign(p)
    ensures t.advice == Postpone <==> t.projectedImpact.Defined? && t.projectedImpact.value > TotalIncremental(p)
  {
    var b := Baseline(p);
    if growth.Undefined? || b == 0.0 then TimingResult(Undefined, Keep)
    else
      var projectedBaseline := b * Pow(1.0 + growth.value, 5);
      var lift := (p.m3.total - b) / b;
      var withCampaign := projectedBaseline * (1.0 + lift);
      var impact := withCampaign - projectedBaseline;
      assert impact == projectedBaseline * lift;
      assert b * lift == IncrementalCampaign(p);
      assert impact == Pow(1.0 + growth.value, 5) * (b * lift);
      TimingResult(Defined(impact), if impact > TotalIncremental(p) then Postpone else Keep)
  }

  /** The heuristic on the page: the growth is the mean step growth of every
      row of the monthly table. */
  function CampaignTiming(table: seq<Row>, p: Periods): (t: TimingResult)
    ensures t.projectedImpact.Defined? <==> MeanStepGrowth(Totals(table)).Defined? && Baseline(p) != 0.0
    ensures t.advice == Postpone <==> t.projectedImpact.Defined? && t.projectedImpact.value > TotalIncremental(p)
  {
    AlternativeTiming(p, MeanStepGrowth(Totals(table)))
  }

  /** Without a trend the projection is the campaign-month lift itself, so
      postponing is advised exactly when the post-campaign months fell
      below the baseline overall. */
  lemma FlatTrendTiming(p: Periods)
    requires Baseline(p) != 0.0
    ensures AlternativeTiming(p, Defined(0.0)).advice == Postpone <==> IncrementalPost(p) < 0.0
  {
    PowOne(5);
  }

  /** Only a growing trend can advise postponing a campaign whose lift was
      positive and held up afterwards. */
  lemma PostponeNeedsGrowth(p: Periods, g: real)
    requires IncrementalCampaign(p) > 0.0 && IncrementalPost(p) >= 0.0
    requires AlternativeTiming(p, Defined(g)).advice == Postpone
    ensures Pow(1.0 + g, 5) > 1.0
  {
    var f := Pow(1.0 + g, 5);
    var c := IncrementalCampaign(p);
    var t := AlternativeTiming(p, Defined(g));
    assert t.projectedImpact.value == f * c;
    assert TotalIncremental(p) >= c;
    assert f * c > c;
    PositiveFactor(f - 1.0, c);
  }

  /** The page's "projected ROI" of a Month 6 campaign beats the current
      ROI exactly when postponing is advised. */
  lemma PostponeIffHigherRoi(p: Periods, growth: Ratio)
    ensures AlternativeTiming(p, growth).advice == Postpone <==>
      AlternativeTiming(p, growth).projectedImpact.Defined? &&
      Roi(AlternativeTiming(p, growth).projectedImpact.value) > Roi(TotalIncremental(p))
  {
    var t := AlternativeTiming(p, growth);
    if t.projectedImpact.Defined? {
      RoiStrictlyIncreasing(TotalIncremental(p), t.projectedImpact.value);
    }
  }
}
