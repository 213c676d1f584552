// The sidebar filters applied to the client and deposit tables before any
// analysis page sees them (app.py, `main`). Widget outputs are plain
// parameters: `regions` and `statuses` are the multiselect choices, `None`
// when the client table has no such column; `start` and `end` are the day
// numbers picked in the date-range input.
module Filters {
  import opened Seqs
  import opened Records

  /** A client passes the attribute filters. The region/status mask is only
      applied when both columns exist; otherwise every client is kept. */
  predicate ClientSelected(c: Client, regions: Option<set<string>>, statuses: Option<set<string>>)
  {
    regions.None? || statuses.None? || (c.region in regions.value && c.status in statuses.value)
  }

  /** The client table after the attribute filters. */
  function SelectClients(clients: seq<Client>, regions: Option<set<string>>, statuses: Option<set<string>>): (r: seq<Client>)
    ensures forall c :: c in r <==> c in clients && ClientSelected(c, regions, statuses)
    ensures IsSubsequence(r, clients)
  {
    if regions.Some? && statuses.Some? then
      var rs, ss := regions.value, statuses.value;
      FilterIsSubsequence(clients, (c: Client) => c.region in rs && c.status in ss);
      Filter(clients, (c: Client) => c.region in rs && c.status in ss)
    else
      FilterAll(clients, (c: Client) => true);
      FilterIsSubsequence(clients, (c: Client) => true);
      clients
  }

  predicate InDateRange(d: Deposit, start: int, end: int)
  {
    start <= d.date <= end
  }

  /** The deposit table after the filters: first the inclusive date range,
      then membership of the deposit's client in the filtered client table. */
  function SelectDeposits(deposits: seq<Deposit>, clients: seq<Client>, regions: Option<set<string>>,
                          statuses: Option<set<string>>, start: int, end: int): (r: seq<Deposit>)
    ensures forall d :: d in r <==>
      d in deposits && InDateRange(d, start, end) && d.clientId in ClientIds(SelectClients(clients, regions, statuses))
    ensures forall d ::
              multiset(r)[d] ==
                if InDateRange(d, start, end) && d.clientId in ClientIds(SelectClients(clients, regions, statuses))
                then multiset(deposits)[d] else 0
    ensures IsSubsequence(r, deposits)
  {
    var inRange := Filter(deposits, (d: Deposit) => InDateRange(d, start, end));
    var ids := ClientIds(SelectClients(clients, regions, statuses));
    FilterIsSubsequence(deposits, (d: Deposit) => InDateRange(d, start, end));
    FilterIsSubsequence(inRange, (d: Deposit) => d.clientId in ids);
    FilterCount(deposits, (d: Deposit) => InDateRange(d, start, end));
    FilterCount(inRange, (d: Deposit) => d.clientId in ids);
    SubsequenceTransitive(Filter(inRange, (d: Deposit) => d.clientId in ids), inRange, deposits);
    Filter(inRange, (d: Deposit) => d.clientId in ids)
  }

  /** The earliest deposit date: the date-range input's default start. */
  function MinDate(deposits: seq<Deposit>): (m: int)
    requires deposits != []
    ensures forall d :: d in deposits ==> m <= d.date
    ensures exists d :: d in deposits && d.date == m
  {
    if |deposits| == 1 then deposits[0].date
    else
      var rest := MinDate(deposits[1..]);
      assert forall d :: d in deposits[1..] ==> d in deposits;
      if deposits[0].date <= rest then deposits[0].date else rest
  }

  /** The latest deposit date: the date-range input's default end. */
  function MaxDate(deposits: seq<Deposit>): (m: int)
    requires deposits != []
    ensures forall d :: d in deposits ==> d.date <= m
    ensures exists d :: d in deposits && d.date == m
  {
    if |deposits| == 1 then deposits[0].date
    else
      var rest := MaxDate(deposits[1..]);
      assert forall d :: d in deposits[1..] ==> d in deposits;
      if deposits[0].date >= rest then deposits[0].date else rest
  }

  function Regions(clients: seq<Client>): set<string>
  {
    set c | c in clients :: c.region
  }

  function Statuses(clients: seq<Client>): set<string>
  {
    set c | c in clients :: c.status
  }

  /** With the widgets at their defaults (every region, every status, the
      full date range) the filters keep every client, and exactly the
      deposits whose client occurs in the client table, in their order. */
  lemma DefaultFiltersKeepKnownClients(deposits: seq<Deposit>, clients: seq<Client>)
    requires deposits != []
    ensures SelectClients(clients, Some(Regions(clients)), Some(Statuses(clients))) == clients
    ensures SelectDeposits(deposits, clients, Some(Regions(clients)), Some(Statuses(clients)),
                           MinDate(deposits), MaxDate(deposits))
         == Filter(deposits, (d: Deposit) => d.clientId in ClientIds(clients))
  {
    var rs, ss := Regions(clients), Statuses(clients);
    var start, end := MinDate(deposits), MaxDate(deposits);
    FilterAll(clients, (c: Client) => c.region in rs && c.status in ss);
    assert SelectClients(clients, Some(rs), Some(ss)) == clients;
    FilterAll(deposits, (d: Deposit) => InDateRange(d, start, end));
  }
}
