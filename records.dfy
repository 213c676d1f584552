// The three input tables of the analytics engine, one row type each, and
// the result wrappers used where the source would raise or produce a
// non-finite number.
module Records {

  datatype Option<T> = None | Some(value: T)

  /** Why a metric could not be produced. `MissingPeriod` is a `.loc` lookup
      of a month label that has no aggregate row (a KeyError);
      `TooFewPeriods` is an `.iloc` position past the end of the table (an
      IndexError); `DivisionByZero` is an unguarded ratio whose denominator
      is zero (inf or nan in floating point); `EmptySelection` is an
      arg-max or arg-min over no rows (the ValueError of `idxmax`, the
      IndexError of `.iloc[0]` after `nlargest`). */
  datatype Error = MissingPeriod(month: string) | TooFewPeriods | DivisionByZero | EmptySelection

  datatype Result<T> = Ok(value: T) | Err(error: Error)

  /** A row of the client table. */
  datatype Client = Client(id: string, region: string, status: string, age: real)

  /** A row of the deposit table; `date` is a day number. */
  datatype Deposit = Deposit(clientId: string, date: int, amount: real, kind: string, cadence: string)

  /** A row of the calendar table: a day number and the name of its month
      ("Month 1" .. "Month 5"). */
  datatype CalendarEntry = CalendarEntry(date: int, monthName: string)

  /** The client ids that occur in a client table. */
  function ClientIds(clients: seq<Client>): (ids: set<string>)
    ensures forall c :: c in clients ==> c.id in ids
    ensures forall id :: id in ids ==> exists c :: c in clients && c.id == id
  {
    set c | c in clients :: c.id
  }
}
