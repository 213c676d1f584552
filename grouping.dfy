// The groupby/agg step every analysis page performs: rows are grouped on
// one or more key columns, groups come out in ascending key order, rows
// whose key holds a missing value are dropped, and each group gets its
// deposit sum, mean, count, sample variance and number of distinct clients.
module Grouping {
  import opened Seqs
  import opened Stats
  import opened Order
  import opened Records

  /** One row as the aggregation sees it: its group key (`None` when a key
      column is missing for the row), its deposit amount and its client id. */
  datatype Fact = Fact(key: Option<Key>, amount: real, clientId: string)

  /** The aggregates of one group: `sum`, `mean`, `count` of the deposit
      amounts, their variance (the square of pandas' `std`, missing for a
      single row) and `nunique` of the client ids. The `count` of client ids
      (the "Total Transactions" column) equals `count`, as no id is missing. */
  datatype Agg = Agg(total: real, mean: real, count: nat, variance: Option<real>, uniqueClients: nat)

  /** One output row of a groupby: the key and its aggregates. */
  datatype Row = Row(key: Key, agg: Agg)

  /** What every aggregate of a non-empty group satisfies. */
  predicate ValidAgg(a: Agg)
  {
    a.count >= 1 && 1 <= a.uniqueClients <= a.count && a.mean * a.count as real == a.total
    && (a.variance.Some? <==> a.count >= 2) && (a.variance.Some? ==> a.variance.value >= 0.0)
  }

  function Amounts(fs: seq<Fact>): (xs: seq<real>)
    ensures |xs| == |fs|
    ensures forall i :: 0 <= i < |fs| ==> xs[i] == fs[i].amount
  {
    seq(|fs|, i requires 0 <= i < |fs| => fs[i].amount)
  }

  function ClientsOf(fs: seq<Fact>): set<string>
  {
    set f | f in fs :: f.clientId
  }

  /** A group of n rows has at least one and at most n distinct clients. */
  lemma {:induction false} ClientCountBounds(fs: seq<Fact>)
    ensures |ClientsOf(fs)| <= |fs|
    ensures fs != [] ==> |ClientsOf(fs)| >= 1
  {
    if fs != [] {
      ClientCountBounds(fs[1..]);
      assert ClientsOf(fs) == {fs[0].clientId} + ClientsOf(fs[1..]) by {
        assert forall f :: f in fs <==> f == fs[0] || f in fs[1..] by {
          assert fs == [fs[0]] + fs[1..];
        }
      }
      assert fs[0].clientId in ClientsOf(fs);
    }
  }

  /** The aggregates of a non-empty group. */
  function Summarize(fs: seq<Fact>): (a: Agg)
    requires fs != []
    ensures ValidAgg(a)
    ensures a.count == |fs| && a.uniqueClients == |ClientsOf(fs)|
    ensures a.total == Sum(Amounts(fs))
  {
    var xs := Amounts(fs);
    ClientCountBounds(fs);
    Agg(Sum(xs), Mean(xs), |xs|,
        if |xs| >= 2 then Some(SampleVariance(xs)) else None,
        |ClientsOf(fs)|)
  }

  /** The rows of group `k`, in their input order. */
  function Members(facts: seq<Fact>, k: Key): (ms: seq<Fact>)
    ensures forall f :: f in ms <==> f in facts && f.key == Some(k)
    ensures forall f :: multiset(ms)[f] == if f.key == Some(k) then multiset(facts)[f] else 0
  {
    FilterCount(facts, (f: Fact) => f.key == Some(k));
    Filter(facts, (f: Fact) => f.key == Some(k))
  }

  predicate Present(facts: seq<Fact>, k: Key)
  {
    exists f :: f in facts && f.key == Some(k)
  }

  lemma PresentMembers(facts: seq<Fact>, k: Key)
    requires Present(facts, k)
    ensures Members(facts, k) != []
  {
    var f :| f in facts && f.key == Some(k);
    assert f in Members(facts, k);
  }

  ghost predicate StrictlySorted(ks: seq<Key>)
  {
    forall i, j :: 0 <= i < j < |ks| ==> KeyLess(ks[i], ks[j])
  }

  /** Adds `k` to an ascending list of distinct keys, keeping it ascending
      and distinct. */
  function InsertKey(k: Key, ks: seq<Key>): (r: seq<Key>)
    requires StrictlySorted(ks)
    ensures StrictlySorted(r)
    ensures forall x :: x in r <==> x == k || x in ks
  {
    if ks == [] then [k]
    else if k == ks[0] then ks
    else if KeyLess(k, ks[0]) then
      forall j | 0 < j < |ks| ensures KeyLess(k, ks[j]) {
        KeyLessTransitive(k, ks[0], ks[j]);
      }
      [k] + ks
    else
      KeyLessTotal(k, ks[0]);
      var rest := InsertKey(k, ks[1..]);
      assert forall x :: x in ks <==> x == ks[0] || x in ks[1..] by {
        assert ks == [ks[0]] + ks[1..];
      }
      forall j | 0 <= j < |rest| ensures KeyLess(ks[0], rest[j]) {
        assert rest[j] in rest;
        if rest[j] != k {
          var m :| 0 <= m < |ks[1..]| && ks[1..][m] == rest[j];
          assert ks[m + 1] == rest[j];
        }
      }
      [ks[0]] + rest
  }

  /** The keys that occur in the rows, ascending and each once: the index
      of a groupby result. */
  function PresentKeys(facts: seq<Fact>): (ks: seq<Key>)
    ensures StrictlySorted(ks)
    ensures forall k :: k in ks <==> Present(facts, k)
  {
    if facts == [] then []
    else
      var rest := PresentKeys(facts[1..]);
      assert forall f :: f in facts <==> f == facts[0] || f in facts[1..] by {
        assert facts == [facts[0]] + facts[1..];
      }
      if facts[0].key.Some? then InsertKey(facts[0].key.value, rest) else rest
  }

  /** `groupby(keys).agg(...)`: one row per key that occurs, in ascending
      key order, holding the aggregates of exactly that key's rows. Rows
      with a missing key value belong to no group, and no key gets a row
      of zeros. */
  function GroupBy(facts: seq<Fact>): (rows: seq<Row>)
    ensures forall i, j :: 0 <= i < j < |rows| ==> KeyLess(rows[i].key, rows[j].key)
    ensures forall k :: Present(facts, k) <==> exists i :: 0 <= i < |rows| && rows[i].key == k
    ensures forall i :: 0 <= i < |rows| ==>
      Members(facts, rows[i].key) != [] && rows[i].agg == Summarize(Members(facts, rows[i].key))
    ensures forall i :: 0 <= i < |rows| ==> ValidAgg(rows[i].agg)
  {
    var ks := PresentKeys(facts);
    forall i | 0 <= i < |ks| ensures Members(facts, ks[i]) != [] {
      assert ks[i] in ks;
      PresentMembers(facts, ks[i]);
    }
    var rows := seq(|ks|, i requires 0 <= i < |ks| => Row(ks[i], Summarize(Members(facts, ks[i]))));
    assert forall k :: k in ks <==> exists i :: 0 <= i < |rows| && rows[i].key == k by {
      forall k ensures k in ks ==> exists i :: 0 <= i < |rows| && rows[i].key == k {
        if k in ks {
          var i :| 0 <= i < |ks| && ks[i] == k;
          assert rows[i].key == k;
        }
      }
    }
    rows
  }

  /** `.loc[k]` on a groupby result: the aggregates of key `k`, or `None`
      when the result has no such row (a KeyError). */
  function Lookup(rows: seq<Row>, k: Key): (r: Option<Agg>)
    ensures r.Some? <==> exists i :: 0 <= i < |rows| && rows[i].key == k
    ensures r.Some? ==> exists i :: 0 <= i < |rows| && rows[i].key == k && rows[i].agg == r.value
  {
    if rows == [] then None
    else if rows[0].key == k then Some(rows[0].agg)
    else
      var r := Lookup(rows[1..], k);
      assert forall i :: 1 <= i < |rows| ==> rows[i] == rows[1..][i - 1];
      if r.Some? then
        var i :| 0 <= i < |rows[1..]| && rows[1..][i].key == k && rows[1..][i].agg == r.value;
        assert rows[i + 1].key == k;
        r
      else r
  }

  /** Looking a key up in a groupby result finds the aggregates of that
      key's rows when the key occurs, and nothing otherwise. */
  lemma LookupGroupBy(facts: seq<Fact>, k: Key)
    ensures Lookup(GroupBy(facts), k) ==
      (if Present(facts, k) then Some(Summarize(Members(facts, k))) else None)
  {
    var rows := GroupBy(facts);
    var r := Lookup(rows, k);
    if r.Some? {
      var i :| 0 <= i < |rows| && rows[i].key == k && rows[i].agg == r.value;
      assert rows[i].agg == Summarize(Members(facts, k));
    }
  }
}
