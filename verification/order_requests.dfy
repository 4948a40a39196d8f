/** Validation of the create-order request body (`POST /` of the orders
    router): an ordered chain of field checks where the first failing
    check decides the error, then a shape check of every selected seat. */
module OrderRequests {
  import opened Wrappers
  import opened Json
  import opened SeatStore

  /** A seat as an order records it. */
  datatype OrderSeat = OrderSeat(rowLabel: string, number: int, seatType: SeatType)

  /** The body fields once the chain has accepted them. */
  datatype OrderFields = OrderFields(
    firstName: Value,
    lastName: Value,
    email: Value,
    phone: Value,
    isStudent: bool,
    studentCount: int,
    selectedDate: Value,
    selectedSeats: seq<Value>,
    totalPrice: int)

  /** One check of the chain: whether it passes and the error it reports. */
  datatype Check = Check(passes: bool, error: string)

  /** The checks in the order the handler applies them. */
  function OrderChecks(body: map<string, Value>): (checks: seq<Check>)
    ensures |checks| == 9
  {
    var seats := Field(body, "selectedSeats");
    [ Check(Truthy(Field(body, "firstName")), "Missing first name"),
      Check(Truthy(Field(body, "lastName")), "Missing last name"),
      Check(Truthy(Field(body, "email")), "Missing email"),
      Check(Truthy(Field(body, "phone")), "Missing phone"),
      Check(IsBoolean(Field(body, "isStudent")), "Missing isStudent"),
      Check(IsNumber(Field(body, "studentCount")), "Missing student count"),
      Check(Truthy(Field(body, "selectedDate")), "Missing selected date"),
      Check(seats.Some? && seats.value.Arr? && |seats.value.items| > 0, "Missing selected seats"),
      Check(IsNumber(Field(body, "totalPrice")), "Missing total price") ]
  }

  /** The index of the first failing check, if any. */
  function FirstFailure(checks: seq<Check>): (r: Option<nat>)
    ensures r.None? <==> forall i :: 0 <= i < |checks| ==> checks[i].passes
    ensures r.Some? ==> (r.value < |checks| && !checks[r.value].passes
      && forall j :: 0 <= j < r.value ==> checks[j].passes)
  {
    if |checks| == 0 then None
    else if !checks[0].passes then Some(0)
    else
      match FirstFailure(checks[1..])
      case None =>
        assert forall i :: 1 <= i < |checks| ==> checks[i] == checks[1..][i - 1];
        None
      case Some(i) =>
        assert forall j :: 1 <= j <= i ==> checks[j] == checks[1..][j - 1];
        Some(i + 1)
  }

  /** The `if (…) { res.status(400)…; return; }` chain of the handler: the
      first check that fails answers with its message. */
  function ValidateOrderFields(body: map<string, Value>): (r: Result<OrderFields, string>)
    ensures var checks := OrderChecks(body);
      r.Ok? <==> forall i :: 0 <= i < |checks| ==> checks[i].passes
    ensures var checks := OrderChecks(body);
      r.Err? ==> exists i :: (0 <= i < |checks| && !checks[i].passes && r.error == checks[i].error
        && forall j :: 0 <= j < i ==> checks[j].passes)
    ensures r.Ok? ==>
      && Some(r.value.firstName) == Field(body, "firstName")
      && Some(r.value.selectedDate) == Field(body, "selectedDate")
      && Truthy(Some(r.value.selectedDate))
      && Field(body, "selectedSeats") == Some(Arr(r.value.selectedSeats))
      && |r.value.selectedSeats| > 0
      && Field(body, "totalPrice") == Some(Num(r.value.totalPrice))
  {
    var checks := OrderChecks(body);
    match FirstFailure(checks)
    case Some(i) => Err(checks[i].error)
    case None =>
      assert checks[0].passes && checks[1].passes && checks[2].passes && checks[3].passes;
      assert checks[4].passes && checks[5].passes && checks[6].passes && checks[7].passes;
      assert checks[8].passes;
      var isStudent := Field(body, "isStudent");
      var studentCount := Field(body, "studentCount");
      var selectedSeats := Field(body, "selectedSeats");
      var totalPrice := Field(body, "totalPrice");
      Ok(OrderFields(
        Field(body, "firstName").value, Field(body, "lastName").value,
        Field(body, "email").value, Field(body, "phone").value,
        isStudent.value.b, studentCount.value.n, Field(body, "selectedDate").value,
        selectedSeats.value.items, totalPrice.value.n))
  }

  /** A selected seat of the right shape: a string `rowLabel`, a number
      `number` and a `seatType` of `Standard` or `VIP`. */
  predicate WellFormedSeat(v: Value)
  {
    && v.Obj?
    && IsString(Field(v.fields, "rowLabel"))
    && IsNumber(Field(v.fields, "number"))
    && Field(v.fields, "seatType") in {Some(Str("Standard")), Some(Str("VIP"))}
  }

  function ToOrderSeat(v: Value): OrderSeat
    requires WellFormedSeat(v)
  {
    var seatType := if v.fields["seatType"] == Str("VIP") then VIP else Standard;
    OrderSeat(v.fields["rowLabel"].s, v.fields["number"].n, seatType)
  }

  /** The outcome of the seat-shape loop: the seats, a 400, or a
      `TypeError` from reading a property of a `null` element (caught by
      the handler's `catch`). */
  datatype SeatFormat = Formatted(seats: seq<OrderSeat>) | BadSeatFormat | FormatThrew

  /** Item `i` is the first seat of the wrong shape; `threw` says whether
      reading it throws (a `null` element). */
  predicate FirstBadSeat(items: seq<Value>, i: int, threw: bool)
  {
    && 0 <= i < |items| && !WellFormedSeat(items[i])
    && (forall j :: 0 <= j < i ==> WellFormedSeat(items[j]))
    && (threw <==> items[i].Null?)
  }

  lemma ShiftFirstBadSeat(items: seq<Value>, i: int, threw: bool)
    requires |items| > 0 && WellFormedSeat(items[0])
    requires FirstBadSeat(items[1..], i, threw)
    ensures FirstBadSeat(items, i + 1, threw)
  {
    assert items[i + 1] == items[1..][i];
    forall j | 0 <= j < i + 1
      ensures WellFormedSeat(items[j])
    {
      if j > 0 { assert items[j] == items[1..][j - 1]; }
    }
  }

  /** The loop over the selected seats: the first seat of the wrong shape
      answers 400, unless reading it throws. */
  function ValidateSeatFormat(items: seq<Value>): (r: SeatFormat)
    ensures r.Formatted? <==> forall i :: 0 <= i < |items| ==> WellFormedSeat(items[i])
    ensures r.Formatted? ==> |r.seats| == |items|
    ensures r.Formatted? ==> forall i :: 0 <= i < |items| ==>
        && Field(items[i].fields, "rowLabel") == Some(Str(r.seats[i].rowLabel))
        && Field(items[i].fields, "number") == Some(Num(r.seats[i].number))
        && Field(items[i].fields, "seatType") == Some(Str(if r.seats[i].seatType == VIP then "VIP" else "Standard"))
    ensures !r.Formatted? ==> exists i :: FirstBadSeat(items, i, r.FormatThrew?)
  {
    if |items| == 0 then Formatted([])
    else if PropertyOf(items[0], "rowLabel").ThrowsTypeError? then
      assert FirstBadSeat(items, 0, FormatThrew.FormatThrew?);
      FormatThrew
    else if !WellFormedSeat(items[0]) then
      assert FirstBadSeat(items, 0, BadSeatFormat.FormatThrew?);
      BadSeatFormat
    else
      var rest := ValidateSeatFormat(items[1..]);
      assert forall i :: 1 <= i < |items| ==> items[i] == items[1..][i - 1];
      if rest.Formatted? then Formatted([ToOrderSeat(items[0])] + rest.seats)
      else
        assert exists i :: FirstBadSeat(items, i, rest.FormatThrew?) by {
          var k :| FirstBadSeat(items[1..], k, rest.FormatThrew?);
          ShiftFirstBadSeat(items, k, rest.FormatThrew?);
        }
        rest
  }
}
