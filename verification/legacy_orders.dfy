/** The legacy `POST /create-order` route: a chain of presence checks on
    `userID`, `numberOfTickets` and `seats`, a count check, a per-seat
    format check that also normalises each seat code (`"021b"` becomes
    `"21B"`), and the save of an unpaid order document. */
module LegacyOrders {
  import opened Wrappers
  import opened Json
  import opened Text

  datatype LegacyOutcome =
    | LegacyRejected(error: string)
    | Crashed
    | SaveFailed
    | LegacyCreated(orderId: string)
  {
    /** A `TypeError` thrown by the handler reaches the framework's
        default error handler, which answers 500. */
    function Status(): int
    {
      match this
      case LegacyRejected(_) => 400
      case Crashed => 500
      case SaveFailed => 500
      case LegacyCreated(_) => 200
    }
  }

  /** `v.length` for a value that passed the truthiness check: arrays and
      strings have a length, an object may carry a `length` field, numbers
      and booleans have none. */
  function LengthOf(v: Value): (len: Option<Value>)
    ensures v.Arr? ==> len == Some(Num(|v.items|))
    ensures v.Str? ==> len == Some(Num(|v.s|))
    ensures v.Num? || v.Bool? || v.Null? ==> len.None?
  {
    match v
    case Arr(items) => Some(Num(|items|))
    case Str(s) => Some(Num(|s|))
    case Obj(fields) => Field(fields, "length")
    case _ => None
  }

  /** `a === b` for two values parsed from one body: primitives compare by
      type and value, while two arrays or objects are never the same
      reference. */
  predicate StrictEquals(a: Option<Value>, b: Option<Value>)
  {
    match (a, b)
    case (None, None) => true
    case (Some(Null), Some(Null)) => true
    case (Some(Bool(x)), Some(Bool(y))) => x == y
    case (Some(Num(x)), Some(Num(y))) => x == y
    case (Some(Str(x)), Some(Str(y))) => x == y
    case _ => false
  }

  /** `/^(\d+)([a-zA-Z])$/`: one or more decimal digits, then one letter. */
  predicate IsSeatCode(s: string)
  {
    |s| >= 2 && IsDigits(s[..|s| - 1]) && IsLetter(s[|s| - 1])
  }

  /** `${Number.parseInt(number, 10)}${letter.toUpperCase()}`. */
  function NormalizeSeat(s: string): (r: string)
    requires IsSeatCode(s)
    ensures IsSeatCode(r)
    ensures ParseDigits(r[..|r| - 1]) == ParseDigits(s[..|s| - 1])
    ensures r[|r| - 1] == ToUpper(s[|s| - 1]) && 'A' <= r[|r| - 1] <= 'Z'
    ensures r[0] == '0' ==> r == "0" + [r[1]]
  {
    var digits := NatToDecimal(ParseDigits(s[..|s| - 1]));
    var r := digits + [ToUpper(s[|s| - 1])];
    assert r[..|r| - 1] == digits;
    ParseNatToDecimal(ParseDigits(s[..|s| - 1]));
    r
  }

  /** A normalised seat code is its own normal form. */
  lemma NormalizeSeatIdempotent(s: string)
    requires IsSeatCode(s)
    ensures NormalizeSeat(NormalizeSeat(s)) == NormalizeSeat(s)
  {
    var r := NormalizeSeat(s);
    var n := ParseDigits(s[..|s| - 1]);
    assert r[..|r| - 1] == NatToDecimal(n);
    ParseNatToDecimal(n);
  }

  /** Two codes have the same normal form exactly when they name the same
      number and the same letter up to case. */
  lemma NormalizeSeatSame(a: string, b: string)
    requires IsSeatCode(a) && IsSeatCode(b)
    ensures NormalizeSeat(a) == NormalizeSeat(b) <==>
      ParseDigits(a[..|a| - 1]) == ParseDigits(b[..|b| - 1]) && ToUpper(a[|a| - 1]) == ToUpper(b[|b| - 1])
  {
    var ra, rb := NormalizeSeat(a), NormalizeSeat(b);
    if ra == rb {
      assert ra[..|ra| - 1] == rb[..|rb| - 1];
    }
  }

  /** A code already in normal form (no leading zero, upper-case letter)
      is left as it is. */
  lemma NormalFormFixed(s: string)
    requires IsSeatCode(s)
    requires s[0] != '0' || |s| == 2
    requires 'A' <= s[|s| - 1] <= 'Z'
    ensures NormalizeSeat(s) == s
  {
    var d := s[..|s| - 1];
    assert d[0] == s[0];
    DecimalOfParse(d);
    assert s == d + [s[|s| - 1]];
  }

  /** What the loop over the seats ends with. */
  datatype SeatScan = Normalized(seats: seq<string>) | BadFormat | ScanCrashed

  /** `seats[i]` passes the loop's format check. */
  predicate GoodSeat(v: Value)
  {
    v.Str? && IsSeatCode(v.s)
  }

  /** The loop of the handler: the first seat that is not a string throws
      (`seat.match` is not a function), the first string that does not
      match answers 400, and otherwise every seat is normalised in place. */
  function NormalizeSeats(items: seq<Value>): (r: SeatScan)
    ensures r.Normalized? <==> forall i :: 0 <= i < |items| ==> GoodSeat(items[i])
    ensures r.Normalized? ==>
      |r.seats| == |items| && forall i :: 0 <= i < |items| ==> r.seats[i] == NormalizeSeat(items[i].s)
    ensures !r.Normalized? ==> exists i :: (0 <= i < |items| && !GoodSeat(items[i])
      && (forall j :: 0 <= j < i ==> GoodSeat(items[j]))
      && (r.ScanCrashed? <==> !items[i].Str?))
  {
    if |items| == 0 then Normalized([])
    else if !items[0].Str? then ScanCrashed
    else if !IsSeatCode(items[0].s) then BadFormat
    else
      var rest := NormalizeSeats(items[1..]);
      assert forall i :: 1 <= i < |items| ==> items[i] == items[1..][i - 1];
      match rest
      case Normalized(seats) => Normalized([NormalizeSeat(items[0].s)] + seats)
      case BadFormat =>
        ShiftFirstBad(items, rest);
        BadFormat
      case ScanCrashed =>
        ShiftFirstBad(items, rest);
        ScanCrashed
  }

  lemma ShiftFirstBad(items: seq<Value>, rest: SeatScan)
    requires |items| > 0 && GoodSeat(items[0])
    requires !rest.Normalized?
    requires exists i :: (0 <= i < |items[1..]| && !GoodSeat(items[1..][i])
      && (forall j :: 0 <= j < i ==> GoodSeat(items[1..][j]))
      && (rest.ScanCrashed? <==> !items[1..][i].Str?))
    ensures exists i :: (0 <= i < |items| && !GoodSeat(items[i])
      && (forall j :: 0 <= j < i ==> GoodSeat(items[j]))
      && (rest.ScanCrashed? <==> !items[i].Str?))
  {
    var i :| 0 <= i < |items[1..]| && !GoodSeat(items[1..][i])
      && (forall j :: 0 <= j < i ==> GoodSeat(items[1..][j]))
      && (rest.ScanCrashed? <==> !items[1..][i].Str?);
    assert items[i + 1] == items[1..][i];
    forall j | 0 <= j < i + 1
      ensures GoodSeat(items[j])
    {
      if j > 0 { assert items[j] == items[1..][j - 1]; }
    }
  }

  /** A request that passed every check: the user id as sent, the ticket
      count and the normalised seats. */
  datatype LegacyRequest = LegacyRequest(userID: Value, numberOfTickets: int, seats: seq<string>)

  /** The checks of the handler up to the save, in the handler's order. */
  function ValidateLegacy(body: map<string, Value>): (r: Result<LegacyRequest, LegacyOutcome>)
    ensures !Truthy(Field(body, "userID")) ==> r == Err(LegacyRejected("Missing user id"))
    ensures Truthy(Field(body, "userID")) && !Truthy(Field(body, "numberOfTickets"))
      ==> r == Err(LegacyRejected("Missing number of tickets"))
    ensures Truthy(Field(body, "userID")) && Truthy(Field(body, "numberOfTickets")) && !Truthy(Field(body, "seats"))
      ==> r == Err(LegacyRejected("Missing number of seats"))
    ensures (Truthy(Field(body, "userID")) && Truthy(Field(body, "numberOfTickets")) && Truthy(Field(body, "seats"))
      && !StrictEquals(Field(body, "numberOfTickets"), LengthOf(body["seats"])))
      ==> r == Err(LegacyRejected("Number of tickets doesn't match number of seats booked"))
    ensures r.Err? ==> r.error.LegacyRejected? || r.error.Crashed?
    // Accepted exactly when the checks pass on an array of well-formed codes.
    ensures r.Ok? <==>
      && Truthy(Field(body, "userID"))
      && "numberOfTickets" in body && body["numberOfTickets"].Num?
      && "seats" in body && body["seats"].Arr?
      && body["numberOfTickets"].n == |body["seats"].items| > 0
      && forall i :: 0 <= i < |body["seats"].items| ==> GoodSeat(body["seats"].items[i])
    ensures r.Ok? ==>
      && Some(r.value.userID) == Field(body, "userID")
      && r.value.numberOfTickets == |r.value.seats| == |body["seats"].items|
      && forall i :: 0 <= i < |r.value.seats| ==> r.value.seats[i] == NormalizeSeat(body["seats"].items[i].s)
  {
    var userID := Field(body, "userID");
    var numberOfTickets := Field(body, "numberOfTickets");
    var seats := Field(body, "seats");
    if !Truthy(userID) then Err(LegacyRejected("Missing user id"))
    else if !Truthy(numberOfTickets) then Err(LegacyRejected("Missing number of tickets"))
    else if !Truthy(seats) then Err(LegacyRejected("Missing number of seats"))
    else if !StrictEquals(numberOfTickets, LengthOf(seats.value)) then
      Err(LegacyRejected("Number of tickets doesn't match number of seats booked"))
    else
      match ScanSeatsValue(seats.value)
      case Ok(normalized) => Ok(LegacyRequest(userID.value, numberOfTickets.value.n, normalized))
      case Err(e) => Err(e)
  }

  /** The copy-and-loop over `seats` once the count check has passed. */
  function ScanSeatsValue(v: Value): (r: Result<seq<string>, LegacyOutcome>)
    ensures r.Ok? <==> v.Arr? && forall i :: 0 <= i < |v.items| ==> GoodSeat(v.items[i])
    ensures r.Ok? ==> (|r.value| == |v.items|
      && forall i :: 0 <= i < |v.items| ==> r.value[i] == NormalizeSeat(v.items[i].s))
    ensures r.Err? ==> r.error.LegacyRejected? || r.error.Crashed?
  {
    match v
    case Arr(items) =>
      (match NormalizeSeats(items)
       case Normalized(normalized) => Ok(normalized)
       case BadFormat => Err(LegacyRejected("The seats are not in the right format"))
       case ScanCrashed => Err(Crashed))
    // A non-empty string's first "seat" is a single character, which
    // never matches.
    case Str(_) => Err(LegacyRejected("The seats are not in the right format"))
    // An object with a matching `length` field has no `slice` method.
    case _ => Err(Crashed)
  }

  // ---------------------------------------------------------------------
  // The save, as the order schema has it

  /** The document the order schema builds from the handler's fields: the
      schema keeps `email`, `numberOfTickets`, `seats` and `paid` and
      drops every other field, so `userID` is lost and `email` is unset. */
  datatype SchemaDocument = SchemaDocument(email: Option<string>, numberOfTickets: int, seats: seq<string>, paid: bool)

  /** The schema's `required` validators: `email` must be present. */
  predicate SchemaValid(d: SchemaDocument)
  {
    d.email.Some?
  }

  /** The route as written: the order schema requires an `email` the route
      never sets, so validation rejects every save. `saved` is the id the
      store would assign. */
  function CreateLegacyOrderAsWritten(body: map<string, Value>, saved: Option<string>): (r: LegacyOutcome)
    ensures ValidateLegacy(body).Err? ==> r == ValidateLegacy(body).error
    ensures ValidateLegacy(body).Ok? ==> r == SaveFailed
  {
    match ValidateLegacy(body)
    case Err(e) => e
    case Ok(q) =>
      var doc := SchemaDocument(None, q.numberOfTickets, q.seats, false);
      match saved
      case Some(id) => if SchemaValid(doc) then LegacyCreated(id) else SaveFailed
      case None => SaveFailed
  }

  /** As written, no request ever creates an order. */
  lemma LegacyOrderNeverSaved(body: map<string, Value>, saved: Option<string>)
    ensures !CreateLegacyOrderAsWritten(body, saved).LegacyCreated?
    ensures ValidateLegacy(body).Ok? ==> CreateLegacyOrderAsWritten(body, saved).Status() == 500
  {
  }

  /** The body of the route's own success case: user "45", four tickets,
      seats 21B, 21C, 24B and 30X. */
  const SUCCESS_SEATS: seq<Value> := [Str("21B"), Str("21C"), Str("24B"), Str("30X")]
  const SUCCESS_BODY: map<string, Value> :=
    map["userID" := Str("45"), "numberOfTickets" := Num(4), "seats" := Arr(SUCCESS_SEATS)]

  /** A three-character code: a digit other than `0`, a digit and an
      upper-case letter. Such a code is well formed and normal. */
  lemma ThreeCharCodeNormal(c: string)
    requires |c| == 3 && '1' <= c[0] <= '9' && '0' <= c[1] <= '9' && 'A' <= c[2] <= 'Z'
    ensures GoodSeat(Str(c)) && NormalizeSeat(c) == c
  {
    assert IsDigits(c[..2]);
    NormalFormFixed(c);
  }

  const SUCCESS_CODES: seq<string> := ["21B", "21C", "24B", "30X"]

  /** A list of codes each already in normal form comes out unchanged. */
  lemma {:induction false} NormalCodesUnchanged(items: seq<Value>, codes: seq<string>)
    requires |items| == |codes|
    requires forall i :: 0 <= i < |items| ==> items[i] == Str(codes[i])
    requires forall i :: 0 <= i < |codes| ==> IsSeatCode(codes[i]) && NormalizeSeat(codes[i]) == codes[i]
    ensures NormalizeSeats(items) == Normalized(codes)
    decreases |items|
  {
    if |items| > 0 {
      assert items[0] == Str(codes[0]);
      NormalCodesUnchanged(items[1..], codes[1..]);
      assert [codes[0]] + codes[1..] == codes;
    }
  }

  /** Its seats are well-formed codes already in normal form. */
  lemma SuccessSeatsNormalized()
    ensures NormalizeSeats(SUCCESS_SEATS) == Normalized(SUCCESS_CODES)
  {
    var codes := SUCCESS_CODES;
    ThreeCharCodeNormal(codes[0]);
    ThreeCharCodeNormal(codes[1]);
    ThreeCharCodeNormal(codes[2]);
    ThreeCharCodeNormal(codes[3]);
    NormalCodesUnchanged(SUCCESS_SEATS, codes);
  }

  /** A body with a truthy user id, a ticket count equal to the number of
      seats and a non-empty array of well-formed seats is accepted. */
  lemma ValidateLegacyAccepts(body: map<string, Value>, user: Value, items: seq<Value>)
    requires Field(body, "userID") == Some(user) && Truthy(Some(user))
    requires Field(body, "numberOfTickets") == Some(Num(|items|)) && |items| > 0
    requires Field(body, "seats") == Some(Arr(items))
    requires NormalizeSeats(items).Normalized?
    ensures ValidateLegacy(body) == Ok(LegacyRequest(user, |items|, NormalizeSeats(items).seats))
  {
    assert StrictEquals(Field(body, "numberOfTickets"), LengthOf(Arr(items)));
  }

  lemma SuccessBodyFields()
    ensures Field(SUCCESS_BODY, "userID") == Some(Str("45"))
    ensures Field(SUCCESS_BODY, "numberOfTickets") == Some(Num(4))
    ensures Field(SUCCESS_BODY, "seats") == Some(Arr(SUCCESS_SEATS))
  {
    assert "userID" in SUCCESS_BODY && SUCCESS_BODY["userID"] == Str("45");
    assert "numberOfTickets" in SUCCESS_BODY && SUCCESS_BODY["numberOfTickets"] == Num(4);
    assert "seats" in SUCCESS_BODY && SUCCESS_BODY["seats"] == Arr(SUCCESS_SEATS);
  }

  /** That body passes every check. */
  lemma SuccessBodyAccepted()
    ensures ValidateLegacy(SUCCESS_BODY) == Ok(LegacyRequest(Str("45"), 4, SUCCESS_CODES))
  {
    SuccessBodyFields();
    SuccessSeatsNormalized();
    assert |SUCCESS_SEATS| == 4;
    ValidateLegacyAccepts(SUCCESS_BODY, Str("45"), SUCCESS_SEATS);
  }

  /** The request the route's own success case sends is answered 500. */
  lemma LegacySuccessCaseFails(saved: Option<string>)
    ensures ValidateLegacy(SUCCESS_BODY).Ok?
    ensures CreateLegacyOrderAsWritten(SUCCESS_BODY, saved) == SaveFailed
  {
    SuccessBodyAccepted();
  }

  // ---------------------------------------------------------------------
  // The save, as intended

  /** A stored legacy order, keeping the user id the route sends. */
  datatype LegacyOrder = LegacyOrder(id: string, userID: Value, numberOfTickets: int, seats: seq<string>, paid: bool)

  /** The route with a document that keeps `userID`: a valid request whose
      save succeeds appends an unpaid order with the normalised seats and
      answers 200 with its id; nothing is stored otherwise. */
  function CreateLegacyOrder(orders: seq<LegacyOrder>, body: map<string, Value>, saved: Option<string>)
    : (r: (LegacyOutcome, seq<LegacyOrder>))
    ensures ValidateLegacy(body).Err? ==> r == (ValidateLegacy(body).error, orders)
    ensures ValidateLegacy(body).Ok? && saved.None? ==> r == (SaveFailed, orders)
    ensures r.0.LegacyCreated? <==> ValidateLegacy(body).Ok? && saved.Some?
    ensures r.0.LegacyCreated? ==>
      var q := ValidateLegacy(body).value;
      && r.0.orderId == saved.value
      && r.1 == orders + [LegacyOrder(saved.value, q.userID, q.numberOfTickets, q.seats, false)]
      && |q.seats| == q.numberOfTickets
  {
    match ValidateLegacy(body)
    case Err(e) => (e, orders)
    case Ok(q) =>
      match saved
      case None => (SaveFailed, orders)
      case Some(id) => (LegacyCreated(id), orders + [LegacyOrder(id, q.userID, q.numberOfTickets, q.seats, false)])
  }

  /** The route's own success case creates an unpaid order holding the
      four seats as sent. */
  lemma LegacySuccessCase(orders: seq<LegacyOrder>, id: string)
    ensures CreateLegacyOrder(orders, SUCCESS_BODY, Some(id))
      == (LegacyCreated(id), orders + [LegacyOrder(id, Str("45"), 4, SUCCESS_CODES, false)])
  {
    SuccessBodyAccepted();
  }
}
