// The concrete aggregate tables the pages build from the joined rows: each
// is a groupby on a choice of key columns, so each is a key function handed
// to `Grouping.GroupBy`.
module Tables {
  import opened Seqs
  import opened Stats
  import opened Order
  import opened Records
  import opened Join
  import opened Grouping
  import opened Buckets

  /** The rows of a table as the aggregation sees them, under the key
      function `key` and the deposit each row carries. */
  function FactsOf<R(!new)>(rows: seq<R>, key: R -> Option<Key>, deposit: R -> Deposit): (fs: seq<Fact>)
    ensures |fs| == |rows|
    ensures forall i :: 0 <= i < |rows| ==>
      fs[i] == Fact(key(rows[i]), deposit(rows[i]).amount, deposit(rows[i]).clientId)
  {
    if rows == [] then []
    else [Fact(key(rows[0]), deposit(rows[0]).amount, deposit(rows[0]).clientId)] + FactsOf(rows[1..], key, deposit)
  }

  /** The rows whose key is `k`, in their input order. */
  function KeyedBy<R(!new)>(rows: seq<R>, key: R -> Option<Key>, k: Key): seq<R>
  {
    Filter(rows, (r: R) => key(r) == Some(k))
  }

  /** The group of key `k` holds exactly the rows whose key is `k`, in
      their input order. */
  lemma {:induction false} MembersOfFacts<R(!new)>(rows: seq<R>, key: R -> Option<Key>, deposit: R -> Deposit, k: Key)
    ensures Members(FactsOf(rows, key, deposit), k) == FactsOf(KeyedBy(rows, key, k), key, deposit)
  {
    if rows != [] {
      MembersOfFacts(rows[1..], key, deposit, k);
      var fs := FactsOf(rows, key, deposit);
      assert fs[1..] == FactsOf(rows[1..], key, deposit);
      assert Members(fs, k) == Filter(fs, (f: Fact) => f.key == Some(k));
      assert KeyedBy(rows, key, k) ==
        (if key(rows[0]) == Some(k) then [rows[0]] else []) + KeyedBy(rows[1..], key, k);
    }
  }

  function JoinedDeposit(r: Joined): Deposit { r.deposit }
  function EnrichedDeposit(e: Enriched): Deposit { e.row.deposit }

  /** The month name of a joined row; missing when the calendar was empty. */
  function MonthOf(r: Joined): (m: Option<string>)
    ensures m.Some? <==> r.entry.Some?
  {
    match r.entry
    case Some(e) => Some(e.monthName)
    case None => None
  }

  function MonthKey(r: Joined): Option<Key>
  {
    match MonthOf(r)
    case Some(m) => Some([m])
    case None => None
  }

  /** `merged_data.groupby('month_name')`: the monthly aggregates. */
  function MonthlyMetrics(rows: seq<Joined>): (t: seq<Row>)
    ensures forall i, j :: 0 <= i < j < |t| ==> KeyLess(t[i].key, t[j].key)
    ensures forall k :: (exists i :: 0 <= i < |t| && t[i].key == k) <==> exists r :: r in rows && MonthKey(r) == Some(k)
    ensures forall i :: 0 <= i < |t| ==>
              Members(FactsOf(rows, MonthKey, JoinedDeposit), t[i].key) != [] &&
              t[i].agg == Summarize(Members(FactsOf(rows, MonthKey, JoinedDeposit), t[i].key))
  {
    Aggregate(rows, MonthKey, JoinedDeposit)
  }

  function InMonth(rows: seq<Joined>, m: string): seq<Joined>
  {
    KeyedBy(rows, MonthKey, [m])
  }

  function DepositAmounts(rows: seq<Joined>): (xs: seq<real>)
    ensures |xs| == |rows|
    ensures forall i :: 0 <= i < |rows| ==> xs[i] == rows[i].deposit.amount
  {
    seq(|rows|, i requires 0 <= i < |rows| => rows[i].deposit.amount)
  }

  /** A key occurs among the aggregation inputs exactly when some row
      carries it. */
  lemma PresentIff<R(!new)>(rows: seq<R>, key: R -> Option<Key>, deposit: R -> Deposit, k: Key)
    ensures Present(FactsOf(rows, key, deposit), k) <==> exists r :: r in rows && key(r) == Some(k)
  {
    var fs := FactsOf(rows, key, deposit);
    if r :| r in rows && key(r) == Some(k) {
      var i :| 0 <= i < |rows| && rows[i] == r;
      assert fs[i] in fs;
    }
    if Present(fs, k) {
      var f :| f in fs && f.key == Some(k);
      var i :| 0 <= i < |fs| && fs[i] == f;
      assert rows[i] in rows;
    }
  }

  /** Month `m` occurs among the monthly keys exactly when some deposit
      was joined to it. */
  lemma MonthPresent(rows: seq<Joined>, m: string)
    ensures Present(FactsOf(rows, MonthKey, JoinedDeposit), [m]) <==> exists r :: r in rows && MonthOf(r) == Some(m)
  {
    PresentIff(rows, MonthKey, JoinedDeposit, [m]);
    forall r | r in rows ensures MonthKey(r) == Some([m]) <==> MonthOf(r) == Some(m) {
      if MonthKey(r) == Some([m]) {
        assert MonthKey(r).value[0] == m;
      }
    }
  }

  /** `rows.groupby(key).agg(...)`: one row per key some input row carries,
      in ascending key order, each holding the aggregates of exactly the
      input rows with that key. */
  function Aggregate<R(!new)>(rows: seq<R>, key: R -> Option<Key>, deposit: R -> Deposit): (t: seq<Row>)
    ensures forall i, j :: 0 <= i < j < |t| ==> KeyLess(t[i].key, t[j].key)
    ensures forall k :: (exists i :: 0 <= i < |t| && t[i].key == k) <==> exists r :: r in rows && key(r) == Some(k)
    ensures forall i :: 0 <= i < |t| ==>
              Members(FactsOf(rows, key, deposit), t[i].key) != [] &&
              t[i].agg == Summarize(Members(FactsOf(rows, key, deposit), t[i].key))
  {
    KeysOfRows(rows, key, deposit);
    GroupBy(FactsOf(rows, key, deposit))
  }

  /** A key occurs among the aggregation inputs exactly when some row
      carries it, for every key. */
  lemma KeysOfRows<R(!new)>(rows: seq<R>, key: R -> Option<Key>, deposit: R -> Deposit)
    ensures forall k :: Present(FactsOf(rows, key, deposit), k) <==> exists r :: r in rows && key(r) == Some(k)
  {
    forall k ensures Present(FactsOf(rows, key, deposit), k) <==> exists r :: r in rows && key(r) == Some(k) {
      PresentIff(rows, key, deposit, k);
    }
  }

  /** The amounts the aggregation sees are the deposits' amounts. */
  lemma AmountsOfJoined(rows: seq<Joined>, key: Joined -> Option<Key>)
    ensures Amounts(FactsOf(rows, key, JoinedDeposit)) == DepositAmounts(rows)
  {
  }

  /** The monthly table has a row for month `m` exactly when some deposit
      was joined to that month; the row's count is the number of those
      deposits and its total is the sum of their amounts. */
  lemma MonthlyRow(rows: seq<Joined>, m: string)
    ensures Lookup(MonthlyMetrics(rows), [m]).Some? <==> exists r :: r in rows && MonthOf(r) == Some(m)
    ensures Lookup(MonthlyMetrics(rows), [m]).Some? ==>
      Lookup(MonthlyMetrics(rows), [m]).value.count == |InMonth(rows, m)| &&
      Lookup(MonthlyMetrics(rows), [m]).value.total == Sum(DepositAmounts(InMonth(rows, m)))
  {
    var fs := FactsOf(rows, MonthKey, JoinedDeposit);
    assert MonthlyMetrics(rows) == Aggregate(rows, MonthKey, JoinedDeposit) == GroupBy(fs);
    LookupGroupBy(fs, [m]);
    MonthPresent(rows, m);
    if Present(fs, [m]) {
      var inM := InMonth(rows, m);
      var group := FactsOf(inM, MonthKey, JoinedDeposit);
      MembersOfFacts(rows, MonthKey, JoinedDeposit, [m]);
      assert Members(fs, [m]) == group;
      AmountsOfJoined(inM, MonthKey);
      var agg := Summarize(group);
      assert agg.count == |inM| && agg.total == Sum(DepositAmounts(inM));
    }
  }

  function MonthPairKey(r: Joined, second: string): Option<Key>
  {
    match MonthOf(r)
    case Some(m) => Some([m, second])
    case None => None
  }

  function MonthKindKey(r: Joined): Option<Key> { MonthPairKey(r, r.deposit.kind) }
  function MonthCadenceKey(r: Joined): Option<Key> { MonthPairKey(r, r.deposit.cadence) }

  /** `groupby(['month_name', 'deposit_type'])`. */
  function MonthKindMetrics(rows: seq<Joined>): (t: seq<Row>)
    ensures forall i, j :: 0 <= i < j < |t| ==> KeyLess(t[i].key, t[j].key)
    ensures forall k :: (exists i :: 0 <= i < |t| && t[i].key == k) <==> exists r :: r in rows && MonthKindKey(r) == Some(k)
    ensures forall i :: 0 <= i < |t| ==>
              Members(FactsOf(rows, MonthKindKey, JoinedDeposit), t[i].key) != [] &&
              t[i].agg == Summarize(Members(FactsOf(rows, MonthKindKey, JoinedDeposit), t[i].key))
  {
    Aggregate(rows, MonthKindKey, JoinedDeposit)
  }

  /** `groupby(['month_name', 'deposit_cadence'])`. */
  function MonthCadenceMetrics(rows: seq<Joined>): (t: seq<Row>)
    ensures forall i, j :: 0 <= i < j < |t| ==> KeyLess(t[i].key, t[j].key)
    ensures forall k :: (exists i :: 0 <= i < |t| && t[i].key == k) <==> exists r :: r in rows && MonthCadenceKey(r) == Some(k)
    ensures forall i :: 0 <= i < |t| ==>
              Members(FactsOf(rows, MonthCadenceKey, JoinedDeposit), t[i].key) != [] &&
              t[i].agg == Summarize(Members(FactsOf(rows, MonthCadenceKey, JoinedDeposit), t[i].key))
  {
    Aggregate(rows, MonthCadenceKey, JoinedDeposit)
  }

  /** A key built from the row's own column, kept only for Month 3 rows
      (the `month_name == 'Month 3'` mask before the groupby). */
  function Month3Key(r: Joined, column: string): Option<Key>
  {
    if MonthOf(r) == Some("Month 3") then Some([column]) else None
  }

  function Month3KindKey(r: Joined): Option<Key> { Month3Key(r, r.deposit.kind) }
  function Month3CadenceKey(r: Joined): Option<Key> { Month3Key(r, r.deposit.cadence) }

  /** Month 3 deposits grouped by deposit type. */
  function Month3KindPerformance(rows: seq<Joined>): (t: seq<Row>)
    ensures forall i, j :: 0 <= i < j < |t| ==> KeyLess(t[i].key, t[j].key)
    ensures forall k :: (exists i :: 0 <= i < |t| && t[i].key == k) <==> exists r :: r in rows && Month3KindKey(r) == Some(k)
    ensures forall i :: 0 <= i < |t| ==>
              Members(FactsOf(rows, Month3KindKey, JoinedDeposit), t[i].key) != [] &&
              t[i].agg == Summarize(Members(FactsOf(rows, Month3KindKey, JoinedDeposit), t[i].key))
  {
    Aggregate(rows, Month3KindKey, JoinedDeposit)
  }

  /** Month 3 deposits grouped by deposit cadence. */
  function Month3CadencePerformance(rows: seq<Joined>): (t: seq<Row>)
    ensures forall i, j :: 0 <= i < j < |t| ==> KeyLess(t[i].key, t[j].key)
    ensures forall k :: (exists i :: 0 <= i < |t| && t[i].key == k) <==> exists r :: r in rows && Month3CadenceKey(r) == Some(k)
    ensures forall i :: 0 <= i < |t| ==>
              Members(FactsOf(rows, Month3CadenceKey, JoinedDeposit), t[i].key) != [] &&
              t[i].agg == Summarize(Members(FactsOf(rows, Month3CadenceKey, JoinedDeposit), t[i].key))
  {
    Aggregate(rows, Month3CadenceKey, JoinedDeposit)
  }

  /** A (month, client attribute) key; missing when the month or the client
      attribute is missing (no calendar row, no matching client, an age
      outside the bins). */
  function ClientPairKey(e: Enriched, attribute: Client -> Option<string>): Option<Key>
  {
    match (MonthOf(e.row), e.client)
    case (Some(m), Some(c)) =>
      (match attribute(c)
       case Some(a) => Some([m, a])
       case None => None)
    case _ => None
  }

  function RegionOf(c: Client): Option<string> { Some(c.region) }
  function StatusOf(c: Client): Option<string> { Some(c.status) }
  function AgeGroupOf(c: Client): Option<string> { AgeGroup(c.age) }

  function RegionKey(e: Enriched): Option<Key> { ClientPairKey(e, RegionOf) }
  function StatusKey(e: Enriched): Option<Key> { ClientPairKey(e, StatusOf) }
  function AgeKey(e: Enriched): Option<Key> { ClientPairKey(e, AgeGroupOf) }

  /** `groupby(['month_name', 'client_geographical_region'])`. */
  function RegionMetrics(rows: seq<Enriched>): (t: seq<Row>)
    ensures forall i, j :: 0 <= i < j < |t| ==> KeyLess(t[i].key, t[j].key)
    ensures forall k :: (exists i :: 0 <= i < |t| && t[i].key == k) <==> exists r :: r in rows && RegionKey(r) == Some(k)
    ensures forall i :: 0 <= i < |t| ==>
              Members(FactsOf(rows, RegionKey, EnrichedDeposit), t[i].key) != [] &&
              t[i].agg == Summarize(Members(FactsOf(rows, RegionKey, EnrichedDeposit), t[i].key))
  {
    Aggregate(rows, RegionKey, EnrichedDeposit)
  }

  /** `groupby(['month_name', 'client_residence_status'])`. */
  function StatusMetrics(rows: seq<Enriched>): (t: seq<Row>)
    ensures forall i, j :: 0 <= i < j < |t| ==> KeyLess(t[i].key, t[j].key)
    ensures forall k :: (exists i :: 0 <= i < |t| && t[i].key == k) <==> exists r :: r in rows && StatusKey(r) == Some(k)
    ensures forall i :: 0 <= i < |t| ==>
              Members(FactsOf(rows, StatusKey, EnrichedDeposit), t[i].key) != [] &&
              t[i].agg == Summarize(Members(FactsOf(rows, StatusKey, EnrichedDeposit), t[i].key))
  {
    Aggregate(rows, StatusKey, EnrichedDeposit)
  }

  /** `groupby(['month_name', 'age_group'])` after bucketing the ages. */
  function AgeMetrics(rows: seq<Enriched>): (t: seq<Row>)
    ensures forall i, j :: 0 <= i < j < |t| ==> KeyLess(t[i].key, t[j].key)
    ensures forall k :: (exists i :: 0 <= i < |t| && t[i].key == k) <==> exists r :: r in rows && AgeKey(r) == Some(k)
    ensures forall i :: 0 <= i < |t| ==>
              Members(FactsOf(rows, AgeKey, EnrichedDeposit), t[i].key) != [] &&
              t[i].agg == Summarize(Members(FactsOf(rows, AgeKey, EnrichedDeposit), t[i].key))
  {
    Aggregate(rows, AgeKey, EnrichedDeposit)
  }

  /** A deposit whose client is unknown, or whose age falls outside the
      bins, is in no row of the age table. */
  lemma AgeKeyMissing(e: Enriched)
    ensures AgeKey(e).Some? <==> e.row.entry.Some? && e.client.Some? && 0.0 < e.client.value.age <= 100.0
  {
  }
}
