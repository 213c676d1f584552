// The campaign performance indicators, computed from the monthly table
// over a fixed split of the five months: baseline = Month 1 and Month 2,
// campaign = Month 3, post-campaign = Month 4 and Month 5.
module Kpi {
  import opened Records
  import opened Stats
  import opened Grouping

  /** The fixed cost of the campaign, in dollars. */
  const CampaignCost: real := 5000000.0

  /** The monthly aggregates of the five months of the campaign timeline. */
  datatype Periods = Periods(m1: Agg, m2: Agg, m3: Agg, m4: Agg, m5: Agg)

  predicate ValidPeriods(p: Periods)
  {
    ValidAgg(p.m1) && ValidAgg(p.m2) && ValidAgg(p.m3) && ValidAgg(p.m4) && ValidAgg(p.m5)
  }

  const MonthNames: seq<string> := ["Month 1", "Month 2", "Month 3", "Month 4", "Month 5"]

  /** Reads the five months out of the monthly table with `.loc`, in the
      order the page does (baseline months, campaign month, post-campaign
      months); the first month without a row is a KeyError. */
  function PeriodsOf(table: seq<Row>): (r: Result<Periods>)
    requires forall i :: 0 <= i < |table| ==> ValidAgg(table[i].agg)
    ensures r.Ok? <==> forall i :: 0 <= i < |MonthNames| ==> Lookup(table, [MonthNames[i]]).Some?
    ensures r.Ok? ==> ValidPeriods(r.value)
    ensures r.Ok? ==> r.value == Periods(Lookup(table, [MonthNames[0]]).value, Lookup(table, [MonthNames[1]]).value,
                                         Lookup(table, [MonthNames[2]]).value, Lookup(table, [MonthNames[3]]).value,
                                         Lookup(table, [MonthNames[4]]).value)
    ensures r.Err? ==> r.error == MissingPeriod(MonthNames[FirstMissing(table)])
  {
    var a1, a2, a3 := Lookup(table, [MonthNames[0]]), Lookup(table, [MonthNames[1]]), Lookup(table, [MonthNames[2]]);
    var a4, a5 := Lookup(table, [MonthNames[3]]), Lookup(table, [MonthNames[4]]);
    if a1.None? then Err(MissingPeriod(MonthNames[0]))
    else if a2.None? then Err(MissingPeriod(MonthNames[1]))
    else if a3.None? then Err(MissingPeriod(MonthNames[2]))
    else if a4.None? then Err(MissingPeriod(MonthNames[3]))
    else if a5.None? then Err(MissingPeriod(MonthNames[4]))
    else
      LookupValid(table, [MonthNames[0]]);
      LookupValid(table, [MonthNames[1]]);
      LookupValid(table, [MonthNames[2]]);
      LookupValid(table, [MonthNames[3]]);
      LookupValid(table, [MonthNames[4]]);
      Ok(Periods(a1.value, a2.value, a3.value, a4.value, a5.value))
  }

  /** The position in `MonthNames` of the first month without a row, or
      `|MonthNames|` when every month has one. */
  function FirstMissing(table: seq<Row>): (i: nat)
    ensures i <= |MonthNames|
    ensures i < |MonthNames| ==> Lookup(table, [MonthNames[i]]).None?
    ensures forall j :: 0 <= j < i ==> Lookup(table, [MonthNames[j]]).Some?
  {
    FirstMissingFrom(table, 0)
  }

  function FirstMissingFrom(table: seq<Row>, n: nat): (i: nat)
    requires n <= |MonthNames|
    requires forall j :: 0 <= j < n ==> Lookup(table, [MonthNames[j]]).Some?
    ensures n <= i <= |MonthNames|
    ensures i < |MonthNames| ==> Lookup(table, [MonthNames[i]]).None?
    ensures forall j :: 0 <= j < i ==> Lookup(table, [MonthNames[j]]).Some?
    decreases |MonthNames| - n
  {
    if n == |MonthNames| || Lookup(table, [MonthNames[n]]).None? then n
    else FirstMissingFrom(table, n + 1)
  }

  /** A row found in a table of valid aggregates is valid. */
  lemma LookupValid(table: seq<Row>, k: seq<string>)
    requires forall i :: 0 <= i < |table| ==> ValidAgg(table[i].agg)
    ensures Lookup(table, k).Some? ==> ValidAgg(Lookup(table, k).value)
  {
    if Lookup(table, k).Some? {
      var i :| 0 <= i < |table| && table[i].key == k && table[i].agg == Lookup(table, k).value;
    }
  }

  /** A ratio that may be undefined: an unguarded division by zero, which
      the page would show as inf or nan. */
  datatype Ratio = Defined(value: real) | Undefined

  /** The mean of a two-label `.loc` selection. */
  function MeanOf2(a: real, b: real): (m: real)
    ensures m - a == b - m
  {
    (a + b) / 2.0
  }

  /** `(now - before) / before * 100`: the percentage change from `before`
      to `now`, undefined when `before` is zero. */
  function PctChange(now: real, before: real): (r: Ratio)
    ensures r.Defined? <==> before != 0.0
    ensures r.Defined? ==> before * (1.0 + r.value / 100.0) == now
  {
    if before == 0.0 then Undefined
    else
      var q := (now - before) / before;
      assert before * (1.0 + q * 100.0 / 100.0) == before + before * q;
      Defined(q * 100.0)
  }

  /** Against a positive reference the change is positive exactly when the
      value grew, zero exactly when it stayed, negative exactly when it fell. */
  lemma PctChangeSign(now: real, before: real)
    requires before > 0.0
    ensures PctChange(now, before).value > 0.0 <==> now > before
    ensures PctChange(now, before).value == 0.0 <==> now == before
  {
    var v := PctChange(now, before).value;
    assert before * (v / 100.0) == now - before;
    if v > 0.0 { ProductPositive(before, v / 100.0); }
    if v < 0.0 { ProductPositive(before, -v / 100.0); }
  }

  /** The mean of the two baseline months' totals. */
  function Baseline(p: Periods): (b: real)
    ensures 2.0 * b == p.m1.total + p.m2.total
  {
    MeanOf2(p.m1.total, p.m2.total)
  }

  function PostCampaign(p: Periods): real { MeanOf2(p.m4.total, p.m5.total) }

  /** Campaign-month growth: the percentage change of the Month 3 total
      against the mean of the Month 1 and Month 2 totals. */
  function GrowthVsBaseline(p: Periods): (r: Ratio)
    ensures r.Defined? <==> p.m1.total + p.m2.total != 0.0
    ensures r.Defined? ==> Baseline(p) * (1.0 + r.value / 100.0) == p.m3.total
  {
    PctChange(p.m3.total, Baseline(p))
  }

  /** With a positive baseline the campaign month grew exactly when its
      total beat the baseline. */
  lemma GrowthVsBaselineSign(p: Periods)
    requires Baseline(p) > 0.0
    ensures GrowthVsBaseline(p).value > 0.0 <==> p.m3.total > Baseline(p)
  {
    PctChangeSign(p.m3.total, Baseline(p));
  }

  /** With baseline totals 100 and 120 and a campaign total of 200 the
      growth is 90/110, about 81.8 %. */
  lemma GrowthExample(m1: Agg, m2: Agg, m3: Agg, m4: Agg, m5: Agg)
    requires m1.total == 100.0 && m2.total == 120.0 && m3.total == 200.0
    ensures GrowthVsBaseline(Periods(m1, m2, m3, m4, m5)) == Defined(9000.0 / 110.0)
  {
    var v := GrowthVsBaseline(Periods(m1, m2, m3, m4, m5)).value;
    assert 110.0 * (1.0 + v / 100.0) == 200.0;
  }

  /** Effect retention: how much of the campaign-month lift over baseline
      the post-campaign months kept, in percent; undefined when the
      campaign month equals the baseline (no guard in the source). */
  function Retention(p: Periods): (r: Ratio)
    ensures r.Defined? <==> p.m3.total != Baseline(p)
    ensures r.Defined? ==>
      PostCampaign(p) - Baseline(p) == r.value / 100.0 * (p.m3.total - Baseline(p))
  {
    var b := Baseline(p);
    if p.m3.total - b == 0.0 then Undefined
    else
      var q := (PostCampaign(p) - b) / (p.m3.total - b);
      Defined(q * 100.0)
  }

  /** Client growth: the change of Month 3's distinct clients against the
      mean of Month 1's and Month 2's. The baseline has at least one client
      per month, so this ratio is always defined. */
  function ClientGrowth(p: Periods): (r: Ratio)
    requires ValidPeriods(p)
    ensures r.Defined?
    ensures MeanOf2(p.m1.uniqueClients as real, p.m2.uniqueClients as real) * (1.0 + r.value / 100.0)
            == p.m3.uniqueClients as real
  {
    PctChange(p.m3.uniqueClients as real, MeanOf2(p.m1.uniqueClients as real, p.m2.uniqueClients as real))
  }

  /** Average-deposit growth: the change of Month 3's mean deposit against
      the mean of Month 1's and Month 2's mean deposits. */
  function AvgDepositGrowth(p: Periods): (r: Ratio)
    ensures r.Defined? <==> p.m1.mean + p.m2.mean != 0.0
    ensures r.Defined? ==> MeanOf2(p.m1.mean, p.m2.mean) * (1.0 + r.value / 100.0) == p.m3.mean
  {
    PctChange(p.m3.mean, MeanOf2(p.m1.mean, p.m2.mean))
  }

  /** The lift of the campaign month over the baseline. */
  function IncrementalCampaign(p: Periods): (d: real)
    ensures Baseline(p) + d == p.m3.total
    ensures d > 0.0 <==> 2.0 * p.m3.total > p.m1.total + p.m2.total
  {
    p.m3.total - Baseline(p)
  }

  /** The lift of the two post-campaign months over the baseline, summed. */
  function IncrementalPost(p: Periods): (d: real)
    ensures 2.0 * Baseline(p) + d == p.m4.total + p.m5.total
    ensures d < 0.0 <==> PostCampaign(p) < Baseline(p)
  {
    (p.m4.total - Baseline(p)) + (p.m5.total - Baseline(p))
  }

  /** The total lift of the campaign. */
  function TotalIncremental(p: Periods): (t: real)
    ensures t == p.m3.total + p.m4.total + p.m5.total - 3.0 * Baseline(p)
  {
    IncrementalCampaign(p) + IncrementalPost(p)
  }

  /** The post-campaign lift is twice the lift of the post-campaign mean,
      so with retention defined the total lift is the campaign lift scaled
      by 1 + 2 * retention. */
  lemma TotalIncrementalByRetention(p: Periods)
    requires Retention(p).Defined?
    ensures TotalIncremental(p) == IncrementalCampaign(p) * (1.0 + 2.0 * Retention(p).value / 100.0)
  {
    var q := Retention(p).value / 100.0;
    assert PostCampaign(p) - Baseline(p) == q * IncrementalCampaign(p);
    assert IncrementalPost(p) == 2.0 * (PostCampaign(p) - Baseline(p));
  }

  /** The average monthly lift over the campaign month and the two
      post-campaign months. */
  function AverageMonthlyLift(p: Periods): (l: real)
    ensures l == MeanOf2(p.m4.total, p.m5.total) * 2.0 / 3.0 + p.m3.total / 3.0 - Baseline(p)
  {
    (IncrementalCampaign(p) + IncrementalPost(p)) / 3.0
  }

  /** The return on the campaign cost of a total lift, in percent. */
  function Roi(total: real): (r: real)
    ensures CampaignCost * (1.0 + r / 100.0) == total
  {
    (total - CampaignCost) / CampaignCost * 100.0
  }

  lemma RoiStrictlyIncreasing(a: real, b: real)
    ensures a < b <==> Roi(a) < Roi(b)
  {
  }

  /** The campaign paid for itself exactly when the lift exceeds its cost. */
  lemma RoiPositiveIff(total: real)
    ensures Roi(total) > 0.0 <==> total > CampaignCost
    ensures Roi(total) == 0.0 <==> total == CampaignCost
  {
  }

  datatype Verdict = Exceeds | Meets | FallsBelow

  /** How the ROI compares with typical marketing returns. */
  function VerdictOf(roi: real): (v: Verdict)
    ensures v == Exceeds <==> roi > 15.0
    ensures v == FallsBelow <==> roi <= 0.0
  {
    if roi > 15.0 then Exceeds else if roi > 0.0 then Meets else FallsBelow
  }

  /** The verdict in terms of the lift: above 115 % of the cost exceeds,
      above the cost meets, otherwise falls below. */
  lemma VerdictByLift(total: real)
    ensures VerdictOf(Roi(total)) == Exceeds <==> total > 5750000.0
    ensures VerdictOf(Roi(total)) == Meets <==> CampaignCost < total <= 5750000.0
    ensures VerdictOf(Roi(total)) == FallsBelow <==> total <= CampaignCost
  {
  }

  /** The extra distinct clients of the campaign month over the baseline. */
  function IncrementalClients(p: Periods): (d: real)
    ensures d > 0.0 <==> 2 * p.m3.uniqueClients > p.m1.uniqueClients + p.m2.uniqueClients
    ensures d + MeanOf2(p.m1.uniqueClients as real, p.m2.uniqueClients as real) == p.m3.uniqueClients as real
  {
    p.m3.uniqueClients as real - MeanOf2(p.m1.uniqueClients as real, p.m2.uniqueClients as real)
  }

  /** A cost that is either a finite amount or the infinity sentinel. */
  datatype Cost = Finite(amount: real) | Infinite

  /** Client acquisition cost: the campaign cost per extra client, or the
      infinity sentinel when the campaign brought no extra clients. */
  function AcquisitionCost(p: Periods): (c: Cost)
    ensures c.Infinite? <==> IncrementalClients(p) <= 0.0
    ensures c.Finite? ==> c.amount > 0.0 && c.amount * IncrementalClients(p) == CampaignCost
  {
    var n := IncrementalClients(p);
    if n > 0.0 then Finite(CampaignCost / n) else Infinite
  }

  /** Estimated lifetime value: twelve times the mean of the post-campaign
      months' average deposits. */
  function LifetimeValue(p: Periods): (v: real)
    ensures v / 12.0 == MeanOf2(p.m4.mean, p.m5.mean)
  {
    MeanOf2(p.m4.mean, p.m5.mean) * 12.0
  }

  /** Non-negative post-campaign totals give a non-negative lifetime value. */
  lemma LifetimeValueNonnegative(p: Periods)
    requires ValidPeriods(p)
    requires p.m4.total >= 0.0 && p.m5.total >= 0.0
    ensures LifetimeValue(p) >= 0.0
  {
    assert p.m4.mean >= 0.0 by {
      if p.m4.mean < 0.0 { ProductPositive(-p.m4.mean, p.m4.count as real); }
    }
    assert p.m5.mean >= 0.0 by {
      if p.m5.mean < 0.0 { ProductPositive(-p.m5.mean, p.m5.count as real); }
    }
  }

  /** The LTV/CAC multiple. An infinite acquisition cost gives 0 (a finite
      value over infinity); a finite one is always positive, so the
      source's `else 0` branch is never taken. */
  function RoiMultiple(p: Periods): (r: real)
    ensures AcquisitionCost(p).Infinite? ==> r == 0.0
    ensures AcquisitionCost(p).Finite? ==> r * CampaignCost == LifetimeValue(p) * IncrementalClients(p)
  {
    match AcquisitionCost(p)
    case Infinite => 0.0
    case Finite(a) =>
      var n := IncrementalClients(p);
      assert a * n == CampaignCost;
      LifetimeValue(p) / a
  }

  /** The multiple is never negative when the lifetime value is not, and
      it is positive exactly when both the lifetime value and the extra
      clients are. */
  lemma RoiMultipleSign(p: Periods)
    requires LifetimeValue(p) >= 0.0
    ensures RoiMultiple(p) >= 0.0
    ensures RoiMultiple(p) > 0.0 <==> LifetimeValue(p) > 0.0 && IncrementalClients(p) > 0.0
  {
    if AcquisitionCost(p).Finite? {
      var r, v, n := RoiMultiple(p), LifetimeValue(p), IncrementalClients(p);
      assert r * CampaignCost == v * n;
      if v > 0.0 { ProductPositive(v, n); }
      if r < 0.0 { ProductPositive(-r, CampaignCost); }
      if r > 0.0 { ProductPositive(r, CampaignCost); }
    }
  }

  /** Transactions per distinct client in one month; at least one. */
  function TransactionsPerClient(a: Agg): (t: real)
    requires ValidAgg(a)
    ensures t >= 1.0
    ensures t * a.uniqueClients as real == a.count as real
  {
    a.count as real / a.uniqueClients as real
  }

  /** The change in transactions per client from Month 1 to Month 3, in
      percent; always defined, since every month present has a client. */
  function FrequencyGrowth(p: Periods): (r: real)
    requires ValidPeriods(p)
    ensures TransactionsPerClient(p.m1) * (1.0 + r / 100.0) == TransactionsPerClient(p.m3)
  {
    var t1, t3 := TransactionsPerClient(p.m1), TransactionsPerClient(p.m3);
    var q := t3 / t1;
    assert t1 * q == t3;
    var r := (q - 1.0) * 100.0;
    assert 1.0 + r / 100.0 == q;
    r
  }
}
