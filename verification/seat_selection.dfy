/** The legacy `POST /select` route over the old seat collection
    (`seatNumber`, `reserved`, `reservedBy`): a two-state machine that
    takes an unreserved seat to reserved-by-the-requester and never
    overwrites a reservation. */
module SeatSelection {
  import opened Wrappers
  import opened Json

  /** A seat document of the old schema. */
  datatype LegacySeat = LegacySeat(seatNumber: string, reserved: bool, reservedBy: Option<string>)

  datatype SelectOutcome =
    | SelectRejected(message: string)
    | SeatNotFound(message: string)
    | AlreadyReserved(message: string)
    | Reserved(message: string, seatNumber: string, reservedBy: string)
    | ServerError(message: string)
  {
    function Status(): int
    {
      match this
      case SelectRejected(_) => 400
      case SeatNotFound(_) => 404
      case AlreadyReserved(_) => 409
      case Reserved(_, _, _) => 200
      case ServerError(_) => 500
    }
  }

  /** The index of the first seat `findOne({ seatNumber })` returns, the
      query matching every seat number in `keys`. */
  function FindLegacySeat(seats: seq<LegacySeat>, keys: seq<string>): (r: Option<nat>)
    ensures r.None? <==> forall i :: 0 <= i < |seats| ==> seats[i].seatNumber !in keys
    ensures r.Some? ==> (r.value < |seats| && seats[r.value].seatNumber in keys
      && forall j :: 0 <= j < r.value ==> seats[j].seatNumber !in keys)
  {
    if |seats| == 0 then None
    else if seats[0].seatNumber in keys then Some(0)
    else
      match FindLegacySeat(seats[1..], keys)
      case None => None
      case Some(i) => Some(i + 1)
  }

  /** The handler. The query reads the body's seat number as the store
      casts a query value (an array becomes `$in`); the stored `reservedBy`
      is the body's user id cast to the schema's string type. A value that
      does not cast fails the query or the save and answers 500 with
      nothing saved. The message prints both values as a template literal
      does, so an array seat number prints comma-joined. */
  function Select(seats: seq<LegacySeat>, body: map<string, Value>): (r: (SelectOutcome, seq<LegacySeat>))
    ensures !Truthy(Field(body, "userId")) || !Truthy(Field(body, "seatNumber")) ==>
      r == (SelectRejected("User ID and seat number are required."), seats)
    ensures !r.0.Reserved? ==> r.1 == seats
    ensures r.0.SeatNotFound? ==> (
      && r.0.message == "Seat not found."
      && "seatNumber" in body && QueryTexts(body["seatNumber"]).Some?
      && forall i :: 0 <= i < |seats| ==> seats[i].seatNumber !in QueryTexts(body["seatNumber"]).value)
    ensures r.0.AlreadyReserved? ==> r.0.message == "Seat already reserved."
    ensures r.0.Reserved? ==> (
      && "seatNumber" in body && QueryTexts(body["seatNumber"]).Some?
      && "userId" in body && AsText(body["userId"]).Some?
      && FindLegacySeat(seats, QueryTexts(body["seatNumber"]).value).Some?
      && var i := FindLegacySeat(seats, QueryTexts(body["seatNumber"]).value).value;
      var user := AsText(body["userId"]).value;
      && !seats[i].reserved
      && r.1 == seats[i := LegacySeat(seats[i].seatNumber, true, Some(user))]
      && r.0.seatNumber == seats[i].seatNumber && r.0.reservedBy == user
      && r.0.message == "Seat " + TemplateText(body["seatNumber"]) + " reserved successfully by User " + user + ".")
    // A found seat is reserved exactly when it was free and the user id casts.
    ensures (Truthy(Field(body, "userId")) && Truthy(Field(body, "seatNumber"))
      && QueryTexts(body["seatNumber"]).Some?
      && FindLegacySeat(seats, QueryTexts(body["seatNumber"]).value).Some?) ==>
        var i := FindLegacySeat(seats, QueryTexts(body["seatNumber"]).value).value;
        && (r.0.AlreadyReserved? <==> seats[i].reserved)
        && (r.0.Reserved? <==> !seats[i].reserved && AsText(body["userId"]).Some?)
    ensures r.0.ServerError? ==> r.0.message == "Server error."
  {
    var userId := Field(body, "userId");
    var seatNumber := Field(body, "seatNumber");
    if !Truthy(userId) || !Truthy(seatNumber) then
      (SelectRejected("User ID and seat number are required."), seats)
    else
      match QueryTexts(seatNumber.value)
      case None => (ServerError("Server error."), seats)
      case Some(keys) =>
        match FindLegacySeat(seats, keys)
        case None => (SeatNotFound("Seat not found."), seats)
        case Some(i) =>
          if seats[i].reserved then (AlreadyReserved("Seat already reserved."), seats)
          else
            match AsText(userId.value)
            case None => (ServerError("Server error."), seats)
            case Some(user) =>
              (Reserved("Seat " + TemplateText(seatNumber.value) + " reserved successfully by User " + user + ".",
                        seats[i].seatNumber, user),
               seats[i := LegacySeat(seats[i].seatNumber, true, Some(user))])
  }

  /** A seat number sent as a one-element array is the same request as the
      seat number itself (an empty one differs: `""` is falsy, `[""]` is
      not). */
  lemma SingletonSeatNumber(seats: seq<LegacySeat>, body: map<string, Value>, seatNumber: string)
    requires seatNumber != ""
    ensures Select(seats, body["seatNumber" := Arr([Str(seatNumber)])])
         == Select(seats, body["seatNumber" := Str(seatNumber)])
  {
    var items := [Str(seatNumber)];
    assert ScalarTexts(items) == [seatNumber] by {
      assert items[1..] == [];
    }
    assert QueryTexts(Arr(items)) == Some([seatNumber]);
    assert TemplateText(Arr(items)) == seatNumber by {
      var parts := seq(1, i requires 0 <= i < 1 => if items[i].Null? then "" else TemplateText(items[i]));
      assert parts == [seatNumber];
    }
  }

  /** An array of seat numbers reserves the first free seat it lists, and
      the message prints the whole list. */
  lemma ArraySeatNumberReserves()
    ensures Select([LegacySeat("1A", false, None)],
                   map["userId" := Str("u"), "seatNumber" := Arr([Str("1A"), Str("2B")])])
         == (Reserved("Seat " + "1A,2B" + " reserved successfully by User " + "u" + ".", "1A", "u"),
             [LegacySeat("1A", true, Some("u"))])
  {
    var seats := [LegacySeat("1A", false, None)];
    var body := map["userId" := Str("u"), "seatNumber" := Arr([Str("1A"), Str("2B")])];
    TwoSeatNumbersQuery();
    TwoSeatNumbersText();
    assert FindLegacySeat(seats, ["1A", "2B"]) == Some(0);
    assert Field(body, "userId") == Some(Str("u"));
    assert Field(body, "seatNumber") == Some(Arr([Str("1A"), Str("2B")]));
    var r := Select(seats, body);
    assert r.0.Reserved?;
    assert seats[0 := LegacySeat("1A", true, Some("u"))] == [LegacySeat("1A", true, Some("u"))];
  }

  /** How `["1A", "2B"]` reads as a query. */
  lemma TwoSeatNumbersQuery()
    ensures QueryTexts(Arr([Str("1A"), Str("2B")])) == Some(["1A", "2B"])
  {
    var items := [Str("1A"), Str("2B")];
    assert items[1..] == [Str("2B")];
    assert ScalarTexts([Str("2B")]) == ["2B"] by {
      assert [Str("2B")][1..] == [];
    }
    assert ScalarTexts(items) == ["1A"] + ScalarTexts(items[1..]);
    assert forall i :: 0 <= i < |items| ==> !items[i].Arr? && !items[i].Obj?;
    assert QueryTexts(Arr(items)) == Some(ScalarTexts(items));
    assert ScalarTexts(items) == ["1A", "2B"];
  }

  /** How `["1A", "2B"]` prints. */
  lemma TwoSeatNumbersText()
    ensures TemplateText(Arr([Str("1A"), Str("2B")])) == "1A,2B"
  {
    var items := [Str("1A"), Str("2B")];
    var parts := seq(2, i requires 0 <= i < 2 => if items[i].Null? then "" else TemplateText(items[i]));
    assert parts == ["1A", "2B"];
    assert parts[1..] == ["2B"];
    assert JoinCommas(parts) == "1A" + "," + "2B";
  }

  /** One call keeps every reservation: a reserved seat keeps its holder,
      no seat is unreserved, and only the addressed seat can change. */
  lemma SelectKeepsReservations(seats: seq<LegacySeat>, body: map<string, Value>)
    ensures var after := Select(seats, body).1;
      && |after| == |seats|
      && (forall i :: 0 <= i < |seats| && seats[i].reserved ==> after[i] == seats[i])
      && (forall i :: 0 <= i < |seats| ==> after[i].seatNumber == seats[i].seatNumber)
      && (forall i :: 0 <= i < |seats| && after[i] != seats[i] ==>
            "seatNumber" in body && QueryTexts(body["seatNumber"]).Some?
            && seats[i].seatNumber in QueryTexts(body["seatNumber"]).value)
  {
  }

  /** A sequence of requests handled one after another. */
  function SelectAll(seats: seq<LegacySeat>, bodies: seq<map<string, Value>>): seq<LegacySeat>
    decreases |bodies|
  {
    if |bodies| == 0 then seats else SelectAll(Select(seats, bodies[0]).1, bodies[1..])
  }

  /** Whatever sequence of requests arrives, a reservation is never lost
      and its holder never changes. */
  lemma {:induction false} ReservationsArePermanent(seats: seq<LegacySeat>, bodies: seq<map<string, Value>>)
    ensures var after := SelectAll(seats, bodies);
      && |after| == |seats|
      && forall i :: 0 <= i < |seats| && seats[i].reserved ==> after[i] == seats[i]
    decreases |bodies|
  {
    if |bodies| > 0 {
      SelectKeepsReservations(seats, bodies[0]);
      ReservationsArePermanent(Select(seats, bodies[0]).1, bodies[1..]);
    }
  }

  /** Once a seat is reserved, every further request for it is refused
      with 409. */
  lemma SecondSelectConflicts(seats: seq<LegacySeat>, body: map<string, Value>, body2: map<string, Value>)
    requires Select(seats, body).0.Reserved?
    requires Truthy(Field(body2, "userId"))
    requires Field(body2, "seatNumber") == Field(body, "seatNumber")
    ensures Select(Select(seats, body).1, body2).0 == AlreadyReserved("Seat already reserved.")
  {
    var after := Select(seats, body).1;
    var keys := QueryTexts(body["seatNumber"]).value;
    var i := FindLegacySeat(seats, keys).value;
    assert FindLegacySeat(after, keys) == Some(i) by {
      assert forall j :: 0 <= j < |seats| ==> after[j].seatNumber == seats[j].seatNumber;
      FindLegacySeatSameNumbers(seats, after, keys);
    }
  }

  /** The lookup depends on the seat numbers alone. */
  lemma {:induction false} FindLegacySeatSameNumbers(a: seq<LegacySeat>, b: seq<LegacySeat>, keys: seq<string>)
    requires |a| == |b| && forall j :: 0 <= j < |a| ==> a[j].seatNumber == b[j].seatNumber
    ensures FindLegacySeat(a, keys) == FindLegacySeat(b, keys)
    decreases |a|
  {
    if |a| > 0 && a[0].seatNumber !in keys {
      FindLegacySeatSameNumbers(a[1..], b[1..], keys);
    }
  }
}
