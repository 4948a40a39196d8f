/** `GET /all`: the whole seat list grouped by row label. The data-access
    call is an input: the list it returned, or `None` when it threw. */
module SeatsApi {
  import opened Wrappers
  import opened SeatStore
  import opened SeatCache

  datatype AllResponse =
    | Rows(rows: RowGroups)
    | RetrievalFailed(error: string)
  {
    function Status(): int
    {
      if Rows? then 200 else 500
    }
  }

  function All(retrieved: Option<seq<Seat>>): (r: AllResponse)
    ensures retrieved.None? ==> r.Status() == 500 && r == RetrievalFailed("Unable to retrieve seats from database")
    ensures retrieved.Some? ==> r.Status() == 200 && r.Rows?
    ensures r.Rows? ==> forall k :: k in r.rows ==>
      |r.rows[k]| > 0 && forall i :: 0 <= i < |r.rows[k]| ==> r.rows[k][i].rowLabel == k
    ensures r.Rows? ==> forall k :: k in r.rows <==> HasRow(retrieved.value, k)
    ensures r.Rows? ==> forall k :: k in r.rows ==> r.rows[k] == RowOf(retrieved.value, k)
    ensures r.Rows? ==> |Flatten(r.rows, RowOrder(retrieved.value))| == |retrieved.value|
  {
    match retrieved
    case None => RetrievalFailed("Unable to retrieve seats from database")
    case Some(seats) =>
      GroupByRowIsRowOf(seats);
      GroupByRowProperties(seats);
      GroupByRowTotal(seats);
      Rows(GroupByRow(seats))
  }
}
