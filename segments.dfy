// The choice of the best and worst segments: `idxmax`, `nlargest(1, ..)`
// and `nsmallest(1, ..)` over the Month 3 rows of an aggregate table. All
// three keep the first row, in table order, among equal values.
module Segments {
  import opened Seqs
  import opened Order
  import opened Records
  import opened Join
  import opened Grouping
  import opened Tables

  /** The position of the first largest value. */
  function ArgMax(xs: seq<real>): (i: nat)
    requires xs != []
    ensures i < |xs|
    ensures forall j :: 0 <= j < |xs| ==> xs[j] <= xs[i]
    ensures forall j :: 0 <= j < i ==> xs[j] < xs[i]
  {
    if |xs| == 1 then 0
    else
      var k := ArgMax(xs[..|xs| - 1]);
      assert forall j :: 0 <= j < |xs| - 1 ==> xs[j] == xs[..|xs| - 1][j];
      if xs[|xs| - 1] > xs[k] then |xs| - 1 else k
  }

  /** The position of the first smallest value. */
  function ArgMin(xs: seq<real>): (i: nat)
    requires xs != []
    ensures i < |xs|
    ensures forall j :: 0 <= j < |xs| ==> xs[i] <= xs[j]
    ensures forall j :: 0 <= j < i ==> xs[i] < xs[j]
  {
    if |xs| == 1 then 0
    else
      var k := ArgMin(xs[..|xs| - 1]);
      assert forall j :: 0 <= j < |xs| - 1 ==> xs[j] == xs[..|xs| - 1][j];
      if xs[|xs| - 1] < xs[k] then |xs| - 1 else k
  }

  /** The aggregate column a choice is made on. */
  datatype Metric = TotalDeposits | AverageDeposit | DistinctClients

  function MetricOf(a: Agg, m: Metric): real
  {
    match m
    case TotalDeposits => a.total
    case AverageDeposit => a.mean
    case DistinctClients => a.uniqueClients as real
  }

  function Column(rows: seq<Row>, m: Metric): (xs: seq<real>)
    ensures |xs| == |rows|
    ensures forall i :: 0 <= i < |rows| ==> xs[i] == MetricOf(rows[i].agg, m)
  {
    seq(|rows|, i requires 0 <= i < |rows| => MetricOf(rows[i].agg, m))
  }

  /** Row `i` has the largest value of the metric, and every row before it
      a smaller one. */
  predicate FirstLargest(rows: seq<Row>, m: Metric, i: int)
  {
    0 <= i < |rows| &&
    (forall j :: 0 <= j < |rows| ==> MetricOf(rows[j].agg, m) <= MetricOf(rows[i].agg, m)) &&
    (forall j :: 0 <= j < i ==> MetricOf(rows[j].agg, m) < MetricOf(rows[i].agg, m))
  }

  /** Row `i` has the smallest value of the metric, and every row before it
      a larger one. */
  predicate FirstSmallest(rows: seq<Row>, m: Metric, i: int)
  {
    0 <= i < |rows| &&
    (forall j :: 0 <= j < |rows| ==> MetricOf(rows[i].agg, m) <= MetricOf(rows[j].agg, m)) &&
    (forall j :: 0 <= j < i ==> MetricOf(rows[i].agg, m) < MetricOf(rows[j].agg, m))
  }

  /** The row with the largest value of the metric, the first one on ties;
      an error on no rows. */
  function Best(rows: seq<Row>, m: Metric): (r: Result<Row>)
    ensures r.Err? <==> rows == []
    ensures r.Err? ==> r.error == EmptySelection
    ensures r.Ok? ==> exists i :: FirstLargest(rows, m, i) && rows[i] == r.value
  {
    if rows == [] then Err(EmptySelection)
    else
      var i := ArgMax(Column(rows, m));
      Ok(rows[i])
  }

  /** The row with the smallest value of the metric, the first one on ties;
      an error on no rows. */
  function Worst(rows: seq<Row>, m: Metric): (r: Result<Row>)
    ensures r.Err? <==> rows == []
    ensures r.Err? ==> r.error == EmptySelection
    ensures r.Ok? ==> exists i :: FirstSmallest(rows, m, i) && rows[i] == r.value
  {
    if rows == [] then Err(EmptySelection)
    else
      var i := ArgMin(Column(rows, m));
      Ok(rows[i])
  }

  /** On one row set the best value is never below the worst. */
  lemma BestAtLeastWorst(rows: seq<Row>, m: Metric)
    requires rows != []
    ensures MetricOf(Worst(rows, m).value.agg, m) <= MetricOf(Best(rows, m).value.agg, m)
  {
    var b, w := Best(rows, m).value, Worst(rows, m).value;
    var i :| FirstLargest(rows, m, i) && rows[i] == b;
    var k :| FirstSmallest(rows, m, k) && rows[k] == w;
    assert MetricOf(rows[k].agg, m) <= MetricOf(rows[i].agg, m);
  }

  predicate IsMonth3Row(r: Row)
  {
    IsMonth3Key(r.key)
  }

  /** The Month 3 rows of a (month, segment) table, in table order. */
  function Month3Rows(table: seq<Row>): (rows: seq<Row>)
    ensures forall r :: r in rows <==> r in table && IsMonth3Row(r)
    ensures forall i :: 0 <= i < |rows| ==> IsMonth3Row(rows[i])
    ensures IsSubsequence(rows, table)
  {
    FilterIsSubsequence(table, IsMonth3Row);
    Filter(table, IsMonth3Row)
  }

  /** Two (month, segment) keys of the same month order as their segments. */
  lemma SameMonthOrder(a: Key, b: Key)
    requires |a| == 2 && |b| == 2 && a[0] == b[0]
    ensures KeyLess(a, b) <==> StringLess(a[1], b[1])
  {
    var a1, b1 := a[1..], b[1..];
    assert a1[0] == a[1] && b1[0] == b[1] && a1[1..] == [] && b1[1..] == [];
    assert KeyLess(a1, b1) <==> StringLess(a[1], b[1]);
    StringLessIrreflexive(a[0]);
  }

  ghost predicate SortedRows(rows: seq<Row>)
  {
    forall i, j :: 0 <= i < j < |rows| ==> KeyLess(rows[i].key, rows[j].key)
  }

  /** A subsequence of a key-ordered table is key-ordered. */
  lemma {:induction false} SubsequenceSorted(rows: seq<Row>, table: seq<Row>)
    requires IsSubsequence(rows, table) && SortedRows(table)
    ensures SortedRows(rows)
    decreases |table|
  {
    if rows != [] {
      assert table != [];
      if rows[0] == table[0] && IsSubsequence(rows[1..], table[1..]) {
        SubsequenceSorted(rows[1..], table[1..]);
        forall j | 0 < j < |rows| ensures KeyLess(rows[0].key, rows[j].key) {
          assert rows[1..][j - 1] in rows[1..];
          SubsequenceMembers(rows[1..], table[1..]);
          var k :| 0 <= k < |table[1..]| && table[1..][k] == rows[j];
          assert table[k + 1] == rows[j];
        }
      } else {
        SubsequenceSorted(rows, table[1..]);
      }
    }
  }

  lemma {:induction false} SubsequenceMembers<T>(rows: seq<T>, table: seq<T>)
    requires IsSubsequence(rows, table)
    ensures forall x :: x in rows ==> x in table
    decreases |table|
  {
    if rows != [] {
      if rows[0] == table[0] && IsSubsequence(rows[1..], table[1..]) {
        SubsequenceMembers(rows[1..], table[1..]);
        assert forall x :: x in rows ==> x == rows[0] || x in rows[1..];
      } else {
        SubsequenceMembers(rows, table[1..]);
      }
    }
  }

  /** The Month 3 rows of a groupby result come in ascending segment order,
      so "first on ties" means the alphabetically first segment. */
  lemma Month3RowsBySegment(table: seq<Row>)
    requires SortedRows(table)
    ensures forall i, j :: 0 <= i < j < |Month3Rows(table)| ==>
      StringLess(Month3Rows(table)[i].key[1], Month3Rows(table)[j].key[1])
  {
    var rows := Month3Rows(table);
    SubsequenceSorted(rows, table);
    forall i, j | 0 <= i < j < |rows| ensures StringLess(rows[i].key[1], rows[j].key[1]) {
      assert rows[i] in rows && rows[j] in rows;
      SameMonthOrder(rows[i].key, rows[j].key);
    }
  }

  /** The best row is a row of the table whose metric no row exceeds. */
  lemma BestIsMax(rows: seq<Row>, m: Metric)
    ensures Best(rows, m).Ok? ==>
              Best(rows, m).value in rows &&
              forall x :: x in rows ==> MetricOf(x.agg, m) <= MetricOf(Best(rows, m).value.agg, m)
  {
    var r := Best(rows, m);
    if r.Ok? {
      var i :| FirstLargest(rows, m, i) && rows[i] == r.value;
      forall x | x in rows ensures MetricOf(x.agg, m) <= MetricOf(r.value.agg, m) {
        var j :| 0 <= j < |rows| && rows[j] == x;
      }
    }
  }

  /** The worst row is a row of the table whose metric no row undercuts. */
  lemma WorstIsMin(rows: seq<Row>, m: Metric)
    ensures Worst(rows, m).Ok? ==>
              Worst(rows, m).value in rows &&
              forall x :: x in rows ==> MetricOf(Worst(rows, m).value.agg, m) <= MetricOf(x.agg, m)
  {
    var r := Worst(rows, m);
    if r.Ok? {
      var i :| FirstSmallest(rows, m, i) && rows[i] == r.value;
      forall x | x in rows ensures MetricOf(r.value.agg, m) <= MetricOf(x.agg, m) {
        var j :| 0 <= j < |rows| && rows[j] == x;
      }
    }
  }

  /** Picking the best Month 3 row of a table: it fails iff the table has
      no Month 3 row, and otherwise gives a Month 3 row of the table whose
      metric no Month 3 row exceeds. */
  lemma Month3BestIsMax(table: seq<Row>, m: Metric)
    ensures Best(Month3Rows(table), m).Err? <==> forall x :: x in table ==> !IsMonth3Row(x)
    ensures Best(Month3Rows(table), m).Ok? ==>
              var b := Best(Month3Rows(table), m).value;
              b in table && IsMonth3Row(b) &&
              forall x :: x in table && IsMonth3Row(x) ==> MetricOf(x.agg, m) <= MetricOf(b.agg, m)
  {
    var t := Month3Rows(table);
    BestIsMax(t, m);
    if t != [] {
      assert t[0] in t;
    }
  }

  /** Picking the worst Month 3 row of a table, symmetrically. */
  lemma Month3WorstIsMin(table: seq<Row>, m: Metric)
    ensures Worst(Month3Rows(table), m).Err? <==> forall x :: x in table ==> !IsMonth3Row(x)
    ensures Worst(Month3Rows(table), m).Ok? ==>
              var w := Worst(Month3Rows(table), m).value;
              w in table && IsMonth3Row(w) &&
              forall x :: x in table && IsMonth3Row(x) ==> MetricOf(w.agg, m) <= MetricOf(x.agg, m)
  {
    var t := Month3Rows(table);
    WorstIsMin(t, m);
    if t != [] {
      assert t[0] in t;
    }
  }

  /** Campaign page: the deposit type with the largest Month 3 total. */
  function BestDepositType(rows: seq<Joined>): (r: Result<Row>)
    ensures r.Err? <==> Month3KindPerformance(rows) == []
    ensures r.Ok? ==>
              r.value in Month3KindPerformance(rows) &&
              forall x :: x in Month3KindPerformance(rows) ==> x.agg.total <= r.value.agg.total
  {
    BestIsMax(Month3KindPerformance(rows), TotalDeposits);
    Best(Month3KindPerformance(rows), TotalDeposits)
  }

  /** Campaign page: the deposit cadence with the largest Month 3 total. */
  function BestCadence(rows: seq<Joined>): (r: Result<Row>)
    ensures r.Err? <==> Month3CadencePerformance(rows) == []
    ensures r.Ok? ==>
              r.value in Month3CadencePerformance(rows) &&
              forall x :: x in Month3CadencePerformance(rows) ==> x.agg.total <= r.value.agg.total
  {
    BestIsMax(Month3CadencePerformance(rows), TotalDeposits);
    Best(Month3CadencePerformance(rows), TotalDeposits)
  }

  /** Campaign page, key insights: the Month 3 row of the (month, type)
      table with the largest total. */
  function InsightDepositType(rows: seq<Joined>): (r: Result<Row>)
    ensures r.Err? <==> forall x :: x in MonthKindMetrics(rows) ==> !IsMonth3Row(x)
    ensures r.Ok? ==>
              r.value in MonthKindMetrics(rows) && IsMonth3Row(r.value) &&
              forall x :: x in MonthKindMetrics(rows) && IsMonth3Row(x) ==> x.agg.total <= r.value.agg.total
  {
    Month3BestIsMax(MonthKindMetrics(rows), TotalDeposits);
    Best(Month3Rows(MonthKindMetrics(rows)), TotalDeposits)
  }

  /** Campaign page, key insights: the Month 3 row of the (month, cadence)
      table with the most distinct clients (not the largest total). */
  function InsightCadence(rows: seq<Joined>): (r: Result<Row>)
    ensures r.Err? <==> forall x :: x in MonthCadenceMetrics(rows) ==> !IsMonth3Row(x)
    ensures r.Ok? ==>
              r.value in MonthCadenceMetrics(rows) && IsMonth3Row(r.value) &&
              forall x :: x in MonthCadenceMetrics(rows) && IsMonth3Row(x) ==> x.agg.uniqueClients <= r.value.agg.uniqueClients
  {
    Month3BestIsMax(MonthCadenceMetrics(rows), DistinctClients);
    MostClients(MonthCadenceMetrics(rows));
    Best(Month3Rows(MonthCadenceMetrics(rows)), DistinctClients)
  }

  /** Among the Month 3 rows of `table`, the pick by distinct clients has
      the most clients. */
  lemma MostClients(table: seq<Row>)
    ensures Best(Month3Rows(table), DistinctClients).Ok? ==>
              forall x :: x in table && IsMonth3Row(x) ==>
                x.agg.uniqueClients <= Best(Month3Rows(table), DistinctClients).value.agg.uniqueClients
  {
    var t := Month3Rows(table);
    BestIsMax(t, DistinctClients);
    var r := Best(t, DistinctClients);
    if r.Ok? {
      forall x | x in table && IsMonth3Row(x)
        ensures x.agg.uniqueClients <= r.value.agg.uniqueClients
      {
        assert x in t;
        assert MetricOf(x.agg, DistinctClients) <= MetricOf(r.value.agg, DistinctClients);
      }
    }
  }

  /** Strategy page: the region with the largest Month 3 total. */
  function BestRegion(rows: seq<Enriched>): (r: Result<Row>)
    ensures r.Err? <==> forall x :: x in RegionMetrics(rows) ==> !IsMonth3Row(x)
    ensures r.Ok? ==>
              r.value in RegionMetrics(rows) && IsMonth3Row(r.value) &&
              forall x :: x in RegionMetrics(rows) && IsMonth3Row(x) ==> x.agg.total <= r.value.agg.total
  {
    Month3BestIsMax(RegionMetrics(rows), TotalDeposits);
    Best(Month3Rows(RegionMetrics(rows)), TotalDeposits)
  }

  /** Strategy page: the region with the smallest Month 3 total. */
  function WorstRegion(rows: seq<Enriched>): (r: Result<Row>)
    ensures r.Err? <==> forall x :: x in RegionMetrics(rows) ==> !IsMonth3Row(x)
    ensures r.Ok? ==>
              r.value in RegionMetrics(rows) && IsMonth3Row(r.value) &&
              forall x :: x in RegionMetrics(rows) && IsMonth3Row(x) ==> r.value.agg.total <= x.agg.total
  {
    Month3WorstIsMin(RegionMetrics(rows), TotalDeposits);
    Worst(Month3Rows(RegionMetrics(rows)), TotalDeposits)
  }

  /** Strategy page: the residence status with the largest Month 3 average
      deposit (not the largest total). */
  function BestResidence(rows: seq<Enriched>): (r: Result<Row>)
    ensures r.Err? <==> forall x :: x in StatusMetrics(rows) ==> !IsMonth3Row(x)
    ensures r.Ok? ==>
              r.value in StatusMetrics(rows) && IsMonth3Row(r.value) &&
              forall x :: x in StatusMetrics(rows) && IsMonth3Row(x) ==> x.agg.mean <= r.value.agg.mean
  {
    Month3BestIsMax(StatusMetrics(rows), AverageDeposit);
    Best(Month3Rows(StatusMetrics(rows)), AverageDeposit)
  }

  /** Strategy page: the age group with the largest Month 3 total. */
  function BestAgeGroup(rows: seq<Enriched>): (r: Result<Row>)
    ensures r.Err? <==> forall x :: x in AgeMetrics(rows) ==> !IsMonth3Row(x)
    ensures r.Ok? ==>
              r.value in AgeMetrics(rows) && IsMonth3Row(r.value) &&
              forall x :: x in AgeMetrics(rows) && IsMonth3Row(x) ==> x.agg.total <= r.value.agg.total
  {
    Month3BestIsMax(AgeMetrics(rows), TotalDeposits);
    Best(Month3Rows(AgeMetrics(rows)), TotalDeposits)
  }

  /** The best and worst regions exist exactly when some deposit of Month 3
      has a known client, and the best region's total is at least the
      worst one's. */
  lemma RegionPicks(rows: seq<Enriched>)
    ensures BestRegion(rows).Ok? <==> WorstRegion(rows).Ok?
    ensures BestRegion(rows).Ok? ==>
      WorstRegion(rows).value.agg.total <= BestRegion(rows).value.agg.total
  {
    var m3 := Month3Rows(RegionMetrics(rows));
    if m3 != [] {
      BestAtLeastWorst(m3, TotalDeposits);
    }
  }

  /** A groupby result has rows exactly when some fact has a key. */
  lemma GroupByNonEmpty(facts: seq<Fact>)
    ensures GroupBy(facts) != [] <==> exists f :: f in facts && f.key.Some?
  {
    var rows := GroupBy(facts);
    if f :| f in facts && f.key.Some? {
      assert Present(facts, f.key.value);
    }
    if rows != [] {
      assert Present(facts, rows[0].key);
    }
  }

  /** The Month 3 rows of a groupby result exist exactly when some fact
      has a (Month 3, segment) key. */
  lemma Month3RowsNonEmpty(facts: seq<Fact>)
    ensures Month3Rows(GroupBy(facts)) != [] <==> exists f :: f in facts && f.key.Some? && IsMonth3Key(f.key.value)
  {
    if f :| f in facts && f.key.Some? && IsMonth3Key(f.key.value) {
      Month3RowOfFact(facts, f);
    }
    var m3 := Month3Rows(GroupBy(facts));
    if m3 != [] {
      FactOfMonth3Row(facts, m3[0]);
    }
  }

  lemma Month3RowOfFact(facts: seq<Fact>, f: Fact)
    requires f in facts && f.key.Some? && IsMonth3Key(f.key.value)
    ensures Month3Rows(GroupBy(facts)) != []
  {
    var table := GroupBy(facts);
    assert Present(facts, f.key.value);
    var j :| 0 <= j < |table| && table[j].key == f.key.value;
    var row := table[j];
    assert row in table && IsMonth3Row(row);
    assert row in Month3Rows(table);
  }

  lemma FactOfMonth3Row(facts: seq<Fact>, row: Row)
    requires row in Month3Rows(GroupBy(facts))
    ensures exists f :: f in facts && f.key.Some? && IsMonth3Key(f.key.value)
  {
    var table := GroupBy(facts);
    assert row in table && IsMonth3Row(row);
    var j :| 0 <= j < |table| && table[j] == row;
    assert Present(facts, table[j].key);
    var f :| f in facts && f.key == Some(table[j].key);
    assert IsMonth3Key(f.key.value);
  }

  /** A fact's key satisfies `keep` exactly when the key of its row does. */
  lemma KeyedFacts<R(!new)>(rows: seq<R>, key: R -> Option<Key>, deposit: R -> Deposit, keep: Key -> bool)
    ensures (exists f :: f in FactsOf(rows, key, deposit) && f.key.Some? && keep(f.key.value)) <==>
            exists r :: r in rows && key(r).Some? && keep(key(r).value)
  {
    var fs := FactsOf(rows, key, deposit);
    if f :| f in fs && f.key.Some? && keep(f.key.value) {
      var i :| 0 <= i < |fs| && fs[i] == f;
      assert rows[i] in rows;
    }
    if r :| r in rows && key(r).Some? && keep(key(r).value) {
      var i :| 0 <= i < |rows| && rows[i] == r;
      assert fs[i] in fs;
    }
  }

  predicate IsMonth3Key(k: Key)
  {
    |k| == 2 && k[0] == "Month 3"
  }

  /** The campaign page's best deposit type of Month 3 exists exactly when
      some deposit was joined to Month 3; otherwise the selection fails. */
  lemma BestDepositTypeExists(rows: seq<Joined>)
    ensures BestDepositType(rows).Ok? <==> exists r :: r in rows && MonthOf(r) == Some("Month 3")
  {
    GroupByNonEmpty(FactsOf(rows, Month3KindKey, JoinedDeposit));
    KeyedFacts(rows, Month3KindKey, JoinedDeposit, (k: Key) => true);
    assert forall r :: r in rows ==> (Month3KindKey(r).Some? <==> MonthOf(r) == Some("Month 3"));
  }

  /** The key-insight pick of the deposit type, made on the (month, type)
      table, exists under the same condition. */
  lemma InsightDepositTypeExists(rows: seq<Joined>)
    ensures InsightDepositType(rows).Ok? <==> exists r :: r in rows && MonthOf(r) == Some("Month 3")
  {
    if r :| r in rows && MonthOf(r) == Some("Month 3") {
      Month3KindRow(rows, r);
    }
    if InsightDepositType(rows).Ok? {
      Month3KindDeposit(rows, InsightDepositType(rows).value);
    }
  }

  /** A deposit joined to Month 3 gives the (month, type) table a Month 3 row. */
  lemma Month3KindRow(rows: seq<Joined>, r: Joined)
    requires r in rows && MonthOf(r) == Some("Month 3")
    ensures exists x :: x in MonthKindMetrics(rows) && IsMonth3Row(x)
  {
    var t := MonthKindMetrics(rows);
    var k := ["Month 3", r.deposit.kind];
    assert MonthKindKey(r) == Some(k);
    assert exists r' :: r' in rows && MonthKindKey(r') == Some(k);
    var i :| 0 <= i < |t| && t[i].key == k;
    assert t[i] in t && IsMonth3Row(t[i]);
  }

  /** A Month 3 row of the (month, type) table comes from a deposit joined
      to Month 3. */
  lemma Month3KindDeposit(rows: seq<Joined>, x: Row)
    requires x in MonthKindMetrics(rows) && IsMonth3Row(x)
    ensures exists r :: r in rows && MonthOf(r) == Some("Month 3")
  {
    var t := MonthKindMetrics(rows);
    var i :| 0 <= i < |t| && t[i] == x;
    assert exists r :: r in rows && MonthKindKey(r) == Some(x.key);
    var r :| r in rows && MonthKindKey(r) == Some(x.key);
    PairKeyMonth(r, r.deposit.kind);
  }

  /** A (month, segment) key names the row's month first. */
  lemma PairKeyMonth(r: Joined, second: string)
    ensures MonthPairKey(r, second).Some? ==>
              |MonthPairKey(r, second).value| == 2 && MonthOf(r) == Some(MonthPairKey(r, second).value[0])
  {
  }
}
