// The two joins the analysis pages perform: the nearest-date join that
// gives every deposit a calendar row (and so a month name), and the left
// join of those rows to the client table on the client id.
module Join {
  import opened Seqs
  import opened Records

  function DepositDate(d: Deposit): int { d.date }
  function EntryDate(e: CalendarEntry): int { e.date }

  function Dist(a: int, b: int): nat
  {
    if a <= b then b - a else a - b
  }

  /** The last position below `n` whose date is at or before `t`
      (the backward search of an as-of join). */
  function Backward(cal: seq<CalendarEntry>, t: int, n: nat): (r: Option<nat>)
    requires n <= |cal|
    ensures r.Some? ==> r.value < n && cal[r.value].date <= t
    ensures r.Some? ==> forall j :: r.value < j < n ==> cal[j].date > t
    ensures r.None? ==> forall j :: 0 <= j < n ==> cal[j].date > t
  {
    if n == 0 then None
    else if cal[n - 1].date <= t then Some(n - 1)
    else Backward(cal, t, n - 1)
  }

  /** The first position from `i` on whose date is at or after `t`
      (the forward search of an as-of join). */
  function Forward(cal: seq<CalendarEntry>, t: int, i: nat): (r: Option<nat>)
    requires i <= |cal|
    ensures r.Some? ==> i <= r.value < |cal| && cal[r.value].date >= t
    ensures r.Some? ==> forall j :: i <= j < r.value ==> cal[j].date < t
    ensures r.None? ==> forall j :: i <= j < |cal| ==> cal[j].date < t
    decreases |cal| - i
  {
    if i == |cal| then None
    else if cal[i].date >= t then Some(i)
    else Forward(cal, t, i + 1)
  }

  /** `e` is a calendar row closest to day `t`, and the earliest such date. */
  ghost predicate IsNearest(e: CalendarEntry, t: int, cal: seq<CalendarEntry>)
  {
    forall c :: c in cal ==>
      Dist(t, e.date) <= Dist(t, c.date) && (Dist(t, e.date) == Dist(t, c.date) ==> e.date <= c.date)
  }

  /** The position of the calendar row an as-of join with direction
      'nearest' picks for day `t`: the backward match unless the forward
      match is strictly closer. */
  function Nearest(cal: seq<CalendarEntry>, t: int): (r: Option<nat>)
    requires SortedBy(cal, EntryDate)
    ensures r.Some? <==> cal != []
    ensures r.Some? ==> r.value < |cal|
    ensures r.Some? ==> forall j :: 0 <= j < |cal| ==>
      Dist(t, cal[r.value].date) <= Dist(t, cal[j].date) &&
      (Dist(t, cal[r.value].date) == Dist(t, cal[j].date) ==> cal[r.value].date <= cal[j].date)
  {
    var b, f := Backward(cal, t, |cal|), Forward(cal, t, 0);
    if b.Some? && f.Some? then
      if t - cal[b.value].date <= cal[f.value].date - t then b else f
    else if b.Some? then b
    else f
  }

  /** A deposit with the calendar row attached to it; `None` when the
      calendar is empty (the month columns are then missing). */
  datatype Joined = Joined(deposit: Deposit, entry: Option<CalendarEntry>)

  function DepositsOf(rows: seq<Joined>): (ds: seq<Deposit>)
    ensures |ds| == |rows|
    ensures forall i :: 0 <= i < |rows| ==> ds[i] == rows[i].deposit
  {
    seq(|rows|, i requires 0 <= i < |rows| => rows[i].deposit)
  }

  /** The joined row of deposit `d`, given the calendar sorted by date and
      holding the same rows as `calendar`. */
  function Attach(d: Deposit, cal: seq<CalendarEntry>, calendar: seq<CalendarEntry>): (j: Joined)
    requires SortedBy(cal, EntryDate)
    requires forall c :: c in cal <==> c in calendar
    ensures j.deposit == d
    ensures j.entry.Some? <==> calendar != []
    ensures j.entry.Some? ==> j.entry.value in calendar && IsNearest(j.entry.value, d.date, calendar)
  {
    if calendar == [] then Joined(d, None)
    else
      assert calendar[0] in cal;
      var k := Nearest(cal, d.date).value;
      assert forall c :: c in calendar ==> exists j :: 0 <= j < |cal| && cal[j] == c;
      Joined(d, Some(cal[k]))
  }

  /** Attaches the nearest calendar row to each deposit, keeping their order. */
  function AttachAll(ds: seq<Deposit>, cal: seq<CalendarEntry>, calendar: seq<CalendarEntry>): (r: seq<Joined>)
    requires SortedBy(cal, EntryDate)
    requires forall c :: c in cal <==> c in calendar
    ensures DepositsOf(r) == ds
    ensures forall i :: 0 <= i < |r| ==> (r[i].entry.Some? <==> calendar != [])
    ensures forall i :: 0 <= i < |r| && r[i].entry.Some? ==>
      r[i].entry.value in calendar && IsNearest(r[i].entry.value, r[i].deposit.date, calendar)
  {
    seq(|ds|, i requires 0 <= i < |ds| => Attach(ds[i], cal, calendar))
  }

  /** Sorting keeps the same rows. */
  lemma SortKeepsRows(calendar: seq<CalendarEntry>)
    ensures forall c :: c in SortBy(calendar, EntryDate) <==> c in calendar
  {
    var cal := SortBy(calendar, EntryDate);
    forall c ensures c in cal <==> c in calendar {
      assert c in cal <==> c in multiset(cal);
      assert c in calendar <==> c in multiset(calendar);
    }
  }

  /** The nearest-date join of the deposits with the calendar (both sorted
      by date first): one row per deposit, ordered by deposit date, each
      carrying a calendar row closest to its date, the earlier one on ties. */
  function MergeAsofNearest(deposits: seq<Deposit>, calendar: seq<CalendarEntry>): (r: seq<Joined>)
    ensures |r| == |deposits|
    ensures multiset(DepositsOf(r)) == multiset(deposits)
    ensures forall i, j :: 0 <= i < j < |r| ==> r[i].deposit.date <= r[j].deposit.date
    ensures forall i :: 0 <= i < |r| ==> (r[i].entry.Some? <==> calendar != [])
    ensures forall i :: 0 <= i < |r| && r[i].entry.Some? ==>
      r[i].entry.value in calendar && IsNearest(r[i].entry.value, r[i].deposit.date, calendar)
  {
    var ds := SortBy(deposits, DepositDate);
    SortKeepsRows(calendar);
    var r := AttachAll(ds, SortBy(calendar, EntryDate), calendar);
    JoinedInDateOrder(r, ds);
    r
  }

  /** Rows built from date-sorted deposits, one each and in order, are in
      date order. */
  lemma JoinedInDateOrder(r: seq<Joined>, ds: seq<Deposit>)
    requires DepositsOf(r) == ds && SortedBy(ds, DepositDate)
    ensures forall i, j :: 0 <= i < j < |r| ==> r[i].deposit.date <= r[j].deposit.date
  {
    forall i, j | 0 <= i < j < |r| ensures r[i].deposit.date <= r[j].deposit.date {
      assert r[i].deposit == ds[i] && r[j].deposit == ds[j];
      assert DepositDate(ds[i]) <= DepositDate(ds[j]);
    }
  }

  /** A joined deposit row with the client row it matched; `None` when no
      client has its id (the client columns are then missing). */
  datatype Enriched = Enriched(row: Joined, client: Option<Client>)

  /** `e` pairs its row with a client of that id, or with nothing when no
      client carries that id. */
  ghost predicate MatchesClient(e: Enriched, clients: seq<Client>)
  {
    match e.client
    case Some(c) => c in clients && c.id == e.row.deposit.clientId
    case None => forall c :: c in clients ==> c.id != e.row.deposit.clientId
  }

  /** `row` paired with each client of `ms`, in order. */
  function PairWith(row: Joined, ms: seq<Client>): (r: seq<Enriched>)
    ensures |r| == |ms|
    ensures forall i :: 0 <= i < |ms| ==> r[i] == Enriched(row, Some(ms[i]))
  {
    if ms == [] then [] else [Enriched(row, Some(ms[0]))] + PairWith(row, ms[1..])
  }

  /** Pairing keeps each client's multiplicity and adds no row without a
      client. */
  lemma {:induction false} PairWithCount(row: Joined, ms: seq<Client>)
    ensures forall c :: multiset(PairWith(row, ms))[Enriched(row, Some(c))] == multiset(ms)[c]
    ensures Enriched(row, None) !in PairWith(row, ms)
  {
    if ms != [] {
      PairWithCount(row, ms[1..]);
      assert ms == [ms[0]] + ms[1..];
      assert PairWith(row, ms) == [Enriched(row, Some(ms[0]))] + PairWith(row, ms[1..]);
    }
  }

  lemma NoMatchCount(row: Joined, clients: seq<Client>)
    requires Filter(clients, (c: Client) => c.id == row.deposit.clientId) == []
    ensures forall c :: c in clients ==> c.id != row.deposit.clientId
    ensures forall c :: multiset([Enriched(row, None)])[Enriched(row, Some(c))] ==
                          if c.id == row.deposit.clientId then multiset(clients)[c] else 0
  {
    var id := row.deposit.clientId;
    forall c ensures multiset([Enriched(row, None)])[Enriched(row, Some(c))] ==
                       if c.id == id then multiset(clients)[c] else 0 {
      if c.id == id {
        assert c !in clients;
      }
    }
  }

  lemma MatchCount(row: Joined, clients: seq<Client>)
    ensures forall e :: e in PairWith(row, Filter(clients, (c: Client) => c.id == row.deposit.clientId)) ==>
                          e.row == row && MatchesClient(e, clients)
    ensures forall c :: multiset(PairWith(row, Filter(clients, (c: Client) => c.id == row.deposit.clientId)))[Enriched(row, Some(c))] ==
                          if c.id == row.deposit.clientId then multiset(clients)[c] else 0
  {
    var id := row.deposit.clientId;
    var ms := Filter(clients, (c: Client) => c.id == id);
    FilterCount(clients, (c: Client) => c.id == id);
    PairWithCount(row, ms);
    var r := PairWith(row, ms);
    forall e | e in r ensures e.row == row && MatchesClient(e, clients) {
      var i :| 0 <= i < |r| && r[i] == e;
      assert ms[i] in ms;
    }
  }

  /** The output rows of one deposit row in the left join: one per client
      with its id, each client as often as the client table holds it, or a
      single row without a client when no client has that id. */
  function ClientMatches(row: Joined, clients: seq<Client>): (r: seq<Enriched>)
    ensures r != []
    ensures forall e :: e in r ==> e.row == row && MatchesClient(e, clients)
    ensures forall c :: multiset(r)[Enriched(row, Some(c))] ==
                          if c.id == row.deposit.clientId then multiset(clients)[c] else 0
  {
    var id := row.deposit.clientId;
    var ms := Filter(clients, (c: Client) => c.id == id);
    if ms == [] then
      NoMatchCount(row, clients);
      [Enriched(row, None)]
    else
      MatchCount(row, clients);
      PairWith(row, ms)
  }

  /** Every client with the row's id is paired with it. */
  lemma EachClientMatched(row: Joined, clients: seq<Client>, c: Client)
    requires c in clients && c.id == row.deposit.clientId
    ensures Enriched(row, Some(c)) in ClientMatches(row, clients)
  {
    assert multiset(clients)[c] > 0;
  }

  /** With unique client ids a row has exactly one match row. */
  lemma OneMatch(row: Joined, clients: seq<Client>)
    requires UniqueIds(clients)
    ensures |ClientMatches(row, clients)| == 1
  {
    AtMostOneMatch(clients, row.deposit.clientId);
  }

  /** The left join on the client id: every joined row, in order, followed
      by one output row per client of that id, or by a single row without
      client attributes when there is none. */
  function LeftJoinClients(rows: seq<Joined>, clients: seq<Client>): (r: seq<Enriched>)
    ensures |r| >= |rows|
    ensures forall x :: x in rows ==> exists e :: e in r && e.row == x
    ensures forall e :: e in r ==> e.row in rows && MatchesClient(e, clients)
  {
    if rows == [] then []
    else
      var first, rest := ClientMatches(rows[0], clients), LeftJoinClients(rows[1..], clients);
      assert first[0] in first + rest;
      assert forall x :: x in rows[1..] ==> x in rows;
      forall x | x in rows ensures exists e :: e in first + rest && e.row == x {
        if x != rows[0] {
          assert x in rows[1..];
          var e :| e in rest && e.row == x;
          assert e in first + rest;
        }
      }
      first + rest
  }

  ghost predicate UniqueIds(clients: seq<Client>)
  {
    forall i, j :: 0 <= i < j < |clients| ==> clients[i].id != clients[j].id
  }

  lemma {:induction false} AtMostOneMatch(clients: seq<Client>, id: string)
    requires UniqueIds(clients)
    ensures |Filter(clients, (c: Client) => c.id == id)| <= 1
  {
    if clients != [] {
      AtMostOneMatch(clients[1..], id);
      if clients[0].id == id {
        assert forall c :: c in clients[1..] ==> c.id != id;
        FilterNone(clients[1..], (c: Client) => c.id == id);
      }
    }
  }

  /** When client ids are unique (the client table's key) the left join is
      one-to-one: row i of the result is row i of the input. */
  lemma {:induction false} LeftJoinOneToOne(rows: seq<Joined>, clients: seq<Client>)
    requires UniqueIds(clients)
    ensures |LeftJoinClients(rows, clients)| == |rows|
    ensures forall i :: 0 <= i < |rows| ==> LeftJoinClients(rows, clients)[i].row == rows[i]
  {
    if rows != [] {
      LeftJoinOneToOne(rows[1..], clients);
      OneMatch(rows[0], clients);
      var first, rest := ClientMatches(rows[0], clients), LeftJoinClients(rows[1..], clients);
      assert first[0] in first;
      var r := first + rest;
      assert r == LeftJoinClients(rows, clients);
      forall i | 0 <= i < |rows| ensures r[i].row == rows[i] {
        if i > 0 {
          assert r[i] == rest[i - 1];
        }
      }
    }
  }
}
