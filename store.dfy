/**
 * The database as the code sees it through the Supabase query builder. A
 * query is reified as a value (table, filters, inner joins, ordering, row
 * window); what the database answers is an input to every operation that
 * queries it. `Holds` gives the meaning PostgREST assigns to each filter on
 * one row.
 */
module Store {
  import opened Wrappers

  /** A column value a filter compares against. */
  datatype Scalar = SStr(s: string) | SBool(b: bool) | SNull

  /** One row: its column values by name. */
  type Row = map<string, Scalar>

  /** `.eq(column, value)`, `.is(column, value)`, and `.or(a,b,...)` over nested filters. */
  datatype Filter =
    | Eq(column: string, value: Scalar)
    | Is(column: string, value: Scalar)
    | AnyOf(alternatives: seq<Filter>)

  /** `.order(column, {ascending})`. */
  datatype Order = Order(column: string, ascending: bool)

  /**
   * `supabase.from(table).select(...)` followed by the filters in call
   * order, the embedded tables selected with `!inner`, an ordering, an
   * inclusive row window `.range(from, to)`, and whether `.maybeSingle()`
   * ends the chain.
   */
  datatype Query = Query(
    table: string,
    filters: seq<Filter>,
    innerJoins: seq<string>,
    order: Option<Order>,
    range: Option<(int, int)>,
    single: bool)

  /** `supabase.rpc(name, args)`: a stored procedure called with named arguments. */
  datatype Rpc = Rpc(name: string, args: seq<(string, Scalar)>)

  /** `createServiceClient()`: the service-role client, or the error it throws. */
  datatype ClientResult<C> = Client(client: C) | ClientFailure(message: string)

  /** What an awaited query yields: `{data, error}` with `error` set, or `data` (null when no row). */
  datatype DbResult<T> = DbOk(data: Option<T>) | DbErr(message: string)

  predicate Holds(f: Filter, row: Row)
    decreases f
  {
    match f
    case Eq(c, v) => c in row && row[c] == v
    case Is(c, v) => c in row && row[c] == v
    case AnyOf(fs) => exists i :: 0 <= i < |fs| && Holds(fs[i], row)
  }

  /** A row passes every filter of the query. */
  predicate Admits(q: Query, row: Row)
  {
    forall i :: 0 <= i < |q.filters| ==> Holds(q.filters[i], row)
  }

  /** Number of rows an inclusive window `.range(from, to)` can hold. */
  function WindowSize(range: (int, int)): int
  {
    range.1 - range.0 + 1
  }
}
