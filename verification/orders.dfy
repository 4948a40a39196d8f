/** The orders router: order creation (verify, then extend the seat locks,
    then create), the order-id format check, and the order-status poll
    whose `succeeded` branch finalizes a paid order (mark paid, make its
    seats unavailable, drop their locks, rebuild the date's seat view).

    Everything the handlers reach beyond the stores is an input: the
    requester's session id, the result of the order-creating data-access
    call, the payment provider's answer and the mail configuration. */
module Orders {
  import opened Wrappers
  import opened Seqs
  import Text
  import opened Json
  import opened SeatStore
  import opened Locks
  import opened SeatVerification
  import opened SeatCache
  import opened OrderRequests

  /** An order document. `id` is the lower-case hex text of its id. */
  datatype Order = Order(
    id: string,
    firstName: Value,
    lastName: Value,
    email: Value,
    phone: Value,
    isStudent: bool,
    studentCount: int,
    selectedDate: string,
    selectedSeats: seq<OrderSeat>,
    totalPrice: int,
    checkoutSessionId: string,
    paid: bool)

  function RefOf(s: OrderSeat): SeatRef
  {
    SeatRef(s.rowLabel, s.number)
  }

  /** `selectedSeats.map((s) => ({ rowLabel: s.rowLabel, number: s.number }))`. */
  function Refs(seats: seq<OrderSeat>): (refs: seq<SeatRef>)
    ensures |refs| == |seats|
    ensures forall i :: 0 <= i < |seats| ==> refs[i] == SeatRef(seats[i].rowLabel, seats[i].number)
  {
    Map(RefOf, seats)
  }

  /** The state the handlers share: the seat collection, the seat locks,
      the order collection and the seat-view cache. */
  datatype Backend = Backend(seats: Store, locks: LockMap, orders: seq<Order>, cache: Cache)

  // ---------------------------------------------------------------------
  // Create order

  /** What the order-creating call returns when it saved the order: the new
      id and the checkout session it opened. */
  datatype NewOrder = NewOrder(id: string, checkoutSessionId: string)

  datatype CreateOutcome =
    | CreateRejected(error: string)
    | SeatsUnavailable(invalidSeats: seq<string>)
    | NotSaved
    | Created(checkoutSessionId: string, orderId: string)
    | Unprocessable
  {
    function Status(): int
    {
      match this
      case CreateRejected(_) => 400
      case SeatsUnavailable(_) => 409
      case NotSaved => 500
      case Created(_, _) => 201
      case Unprocessable => 422
    }
  }

  /** The checkout TTL now sits on the lock of every listed seat; no lock
      appears, disappears or changes owner, and the locks of other seats
      are untouched. */
  predicate LocksExtended(before: LockMap, after: LockMap, date: string, refs: seq<SeatRef>)
  {
    && after.Keys == before.Keys
    && (forall k :: k in before ==> after[k].owner == before[k].owner)
    && (forall i :: 0 <= i < |refs| ==>
          LockKey(date, refs[i]) in after && after[LockKey(date, refs[i])].ttl == ORDER_LOCK_TTL_SECONDS)
    && (forall k :: k in before && k !in LockKeys(date, refs) ==> after[k] == before[k])
  }

  /** The order appended by a successful creation: unpaid, with the
      validated fields, the seats as validated and the date as text. */
  predicate AppendedOrder(before: seq<Order>, after: seq<Order>, f: OrderFields, date: string, seats: seq<OrderSeat>, n: NewOrder)
  {
    && |after| == |before| + 1
    && after[..|before|] == before
    && var o := after[|before|];
    && !o.paid
    && o.id == n.id && o.checkoutSessionId == n.checkoutSessionId
    && o.selectedDate == date && o.selectedSeats == seats
    && o.firstName == f.firstName && o.lastName == f.lastName && o.email == f.email && o.phone == f.phone
    && o.isStudent == f.isStudent && o.studentCount == f.studentCount && o.totalPrice == f.totalPrice
  }

  /** A seat that verifies has a lock. */
  lemma ValidSeatsLocked(st: Backend, date: string, seats: seq<OrderSeat>, sessionId: string)
    requires forall i :: 0 <= i < |seats| ==> SeatValid(st.seats, st.locks, date, RefOf(seats[i]), sessionId)
    ensures forall i :: 0 <= i < |seats| ==> LockKey(date, Refs(seats)[i]) in st.locks
  {
    forall i | 0 <= i < |seats|
      ensures LockKey(date, Refs(seats)[i]) in st.locks
    {
      assert Refs(seats)[i] == RefOf(seats[i]);
      assert OwnerOf(st.locks, LockKey(date, RefOf(seats[i]))).Some?;
    }
  }

  /** Extending the locks of seats that all hold a lock meets `LocksExtended`. */
  lemma ExtendLocksExtends(locks: LockMap, date: string, refs: seq<SeatRef>)
    requires forall i :: 0 <= i < |refs| ==> LockKey(date, refs[i]) in locks
    ensures LocksExtended(locks, ExtendLocks(locks, date, refs, ORDER_LOCK_TTL_SECONDS), date, refs)
  {
    var r := ExtendLocks(locks, date, refs, ORDER_LOCK_TTL_SECONDS);
    forall i | 0 <= i < |refs|
      ensures LockKey(date, refs[i]) in r && r[LockKey(date, refs[i])].ttl == ORDER_LOCK_TTL_SECONDS
    {
      assert LockKey(date, refs[i]) in LockKeys(date, refs);
    }
    forall k | k in locks && k !in LockKeys(date, refs)
      ensures r[k] == locks[k]
    {
      assert r[k].owner == locks[k].owner && r[k].ttl == locks[k].ttl;
    }
  }

  /** Extend the verified seats' locks, then create the order. The locks
      stay extended when the order could not be saved. */
  function Commit(st: Backend, f: OrderFields, date: string, seats: seq<OrderSeat>, sessionId: string, saved: Option<NewOrder>): (r: (CreateOutcome, Backend))
    requires forall i :: 0 <= i < |seats| ==> SeatValid(st.seats, st.locks, date, RefOf(seats[i]), sessionId)
    ensures LocksExtended(st.locks, r.1.locks, date, Refs(seats))
    ensures r.1.seats == st.seats && r.1.cache == st.cache
    ensures saved.None? ==> r.0 == NotSaved && r.1.orders == st.orders
    ensures saved.Some? ==>
      && r.0 == Created(saved.value.checkoutSessionId, saved.value.id)
      && AppendedOrder(st.orders, r.1.orders, f, date, seats, saved.value)
  {
    var refs := Refs(seats);
    ValidSeatsLocked(st, date, seats, sessionId);
    var locks := ExtendLocks(st.locks, date, refs, ORDER_LOCK_TTL_SECONDS);
    ExtendLocksExtends(st.locks, date, refs);
    match saved
    case None => (NotSaved, st.(locks := locks))
    case Some(n) =>
      var order := Order(n.id, f.firstName, f.lastName, f.email, f.phone, f.isStudent,
                         f.studentCount, date, seats, f.totalPrice, n.checkoutSessionId, false);
      (Created(n.checkoutSessionId, n.id), st.(locks := locks, orders := st.orders + [order]))
  }

  /** A create request that passed the field checks, the seat-format
      check and the date cast. */
  datatype CreateRequest = CreateRequest(fields: OrderFields, seats: seq<OrderSeat>, date: string)

  /** The checks `POST /` makes before touching any store. The date is
      taken as the text the document store casts a scalar to; an object
      date fails that cast and lands in the handler's `catch` (422). An
      array date is answered 422 here too, before verification, although
      the store would read it as `$in` in the verification query. */
  function ParseCreateRequest(body: map<string, Value>): (r: Result<CreateRequest, CreateOutcome>)
    ensures ValidateOrderFields(body).Err? ==> r == Err(CreateRejected(ValidateOrderFields(body).error))
    ensures ValidateOrderFields(body).Ok? ==>
      var f := ValidateOrderFields(body).value;
      && (ValidateSeatFormat(f.selectedSeats).BadSeatFormat? <==> r == Err(CreateRejected("Invalid seat format")))
      && (ValidateSeatFormat(f.selectedSeats).FormatThrew? ==> r == Err(Unprocessable))
      && (ValidateSeatFormat(f.selectedSeats).Formatted? && AsText(f.selectedDate).None? ==> r == Err(Unprocessable))
    ensures r.Err? ==> r.error.Status() == 400 || r.error.Status() == 422
    ensures r.Ok? ==>
      && ValidateOrderFields(body) == Ok(r.value.fields)
      && ValidateSeatFormat(r.value.fields.selectedSeats) == Formatted(r.value.seats)
      && AsText(r.value.fields.selectedDate) == Some(r.value.date)
      && r.value.date != ""
      && |r.value.seats| > 0
  {
    match ValidateOrderFields(body)
    case Err(e) => Err(CreateRejected(e))
    case Ok(f) =>
      match ValidateSeatFormat(f.selectedSeats)
      case BadSeatFormat => Err(CreateRejected("Invalid seat format"))
      case FormatThrew => Err(Unprocessable)
      case Formatted(seats) =>
        match AsText(f.selectedDate)
        case None => Err(Unprocessable)
        case Some(date) => Ok(CreateRequest(f, seats, date))
  }

  /** Verify every seat of a parsed request against the requester's
      session; on success extend the locks and create the order. Parsing
      guarantees a date and at least one seat. */
  function PlaceOrder(st: Backend, q: CreateRequest, sessionId: string, saved: Option<NewOrder>): (r: (CreateOutcome, Backend))
    requires q.date != "" && |q.seats| > 0
    // A conflict names the invalid seats and changes nothing.
    ensures r.0.SeatsUnavailable? <==>
      exists i :: 0 <= i < |q.seats| && !SeatValid(st.seats, st.locks, q.date, RefOf(q.seats[i]), sessionId)
    ensures r.0.SeatsUnavailable? ==>
      && r.1 == st
      && r.0.invalidSeats == VerifySeats(st.seats, st.locks, q.date, Refs(q.seats), sessionId)
      && r.0.invalidSeats != []
    ensures r.0.SeatsUnavailable? || r.0.Created? || r.0.NotSaved?
    // Past verification, every seat was available and locked by the requester.
    ensures !r.0.SeatsUnavailable? ==>
      && (forall i :: 0 <= i < |q.seats| ==> SeatValid(st.seats, st.locks, q.date, RefOf(q.seats[i]), sessionId))
      && LocksExtended(st.locks, r.1.locks, q.date, Refs(q.seats))
      && r.1.seats == st.seats && r.1.cache == st.cache
      && (r.0.NotSaved? <==> saved.None?)
      && (r.0.NotSaved? ==> r.1.orders == st.orders)
      && (r.0.Created? ==>
            && r.0 == Created(saved.value.checkoutSessionId, saved.value.id)
            && AppendedOrder(st.orders, r.1.orders, q.fields, q.date, q.seats, saved.value))
  {
    var refs := Refs(q.seats);
    var invalid := VerifySeats(st.seats, st.locks, q.date, refs, sessionId);
    assert forall i :: 0 <= i < |q.seats| ==> refs[i] == RefOf(q.seats[i]);
    if |invalid| > 0 then (SeatsUnavailable(invalid), st)
    else Commit(st, q.fields, q.date, q.seats, sessionId, saved)
  }

  /** `POST /`: parse and check the request, then place the order. */
  function CreateOrder(st: Backend, body: map<string, Value>, sessionId: string, saved: Option<NewOrder>): (r: (CreateOutcome, Backend))
    ensures ParseCreateRequest(body).Err? ==> r == (ParseCreateRequest(body).error, st)
    ensures ParseCreateRequest(body).Ok? ==> r == PlaceOrder(st, ParseCreateRequest(body).value, sessionId, saved)
  {
    match ParseCreateRequest(body)
    case Err(e) => (e, st)
    case Ok(q) => PlaceOrder(st, q, sessionId, saved)
  }

  // ---------------------------------------------------------------------
  // Order ids

  /** `/^[a-fA-F0-9]{24}$/`. */
  predicate IsOrderId(id: string)
  {
    |id| == 24 && forall i :: 0 <= i < |id| ==> Text.IsHexDigit(id[i])
  }

  /** The id guard shared by `GET /:id`, `PUT /:id` and
      `GET /order-status/:id`: 400 for a missing id, 404 for one of the
      wrong format, before any lookup. */
  datatype IdCheck = MissingId | MalformedId | WellFormedId

  function CheckOrderId(id: string): (c: IdCheck)
    ensures c.MissingId? <==> id == ""
    ensures c.WellFormedId? <==> IsOrderId(id)
  {
    if id == "" then MissingId else if !IsOrderId(id) then MalformedId else WellFormedId
  }

  /** The index of the order an id designates: ids are hex text and are
      compared without regard to case; the first match wins. */
  function FindOrder(orders: seq<Order>, id: string): (r: Option<nat>)
    ensures r.Some? ==> (r.value < |orders| && orders[r.value].id == Text.LowerCase(id)
      && forall j :: 0 <= j < r.value ==> orders[j].id != Text.LowerCase(id))
    ensures r.None? ==> forall j :: 0 <= j < |orders| ==> orders[j].id != Text.LowerCase(id)
  {
    FindOrderFrom(orders, Text.LowerCase(id), 0)
  }

  function FindOrderFrom(orders: seq<Order>, key: string, from: nat): (r: Option<nat>)
    requires from <= |orders|
    requires forall j :: 0 <= j < from ==> orders[j].id != key
    ensures r.Some? ==> (from <= r.value < |orders| && orders[r.value].id == key
      && forall j :: 0 <= j < r.value ==> orders[j].id != key)
    ensures r.None? ==> forall j :: 0 <= j < |orders| ==> orders[j].id != key
    decreases |orders| - from
  {
    if from == |orders| then None
    else if orders[from].id == key then Some(from)
    else FindOrderFrom(orders, key, from + 1)
  }

  datatype GetOutcome = GetRejected | GetNotFound | Found(order: Order)
  {
    function Status(): int
    {
      match this
      case GetRejected => 400
      case GetNotFound => 404
      case Found(_) => 200
    }
  }

  /** `GET /:id`. */
  function GetOrder(orders: seq<Order>, id: string): (r: GetOutcome)
    ensures r.GetRejected? <==> id == ""
    ensures id != "" && !IsOrderId(id) ==> r.GetNotFound?
    ensures r.Found? ==> IsOrderId(id) && r.order in orders && r.order.id == Text.LowerCase(id)
    ensures IsOrderId(id) && (exists j :: 0 <= j < |orders| && orders[j].id == Text.LowerCase(id)) ==> r.Found?
  {
    match CheckOrderId(id)
    case MissingId => GetRejected
    case MalformedId => GetNotFound
    case WellFormedId =>
      match FindOrder(orders, id)
      case None => GetNotFound
      case Some(i) => Found(orders[i])
  }

  // ---------------------------------------------------------------------
  // Order status and finalization

  /** The payment provider's answers the poll can receive, in the order the
      handler asks: the checkout session, its payment intent, the intent's
      details. `ProviderFailed` is a thrown error. */
  datatype PaymentLookup =
    | SessionNotFound
    | NoPaymentIntent
    | IntentDetailsNotFound
    | ProviderFailed
    | IntentStatus(status: string)

  /** Whether the mail API key and the QR-code secret are configured. */
  datatype MailConfig = MailConfig(mailKey: bool, qrSecret: bool)

  datatype StatusOutcome =
    | StatusRejected(message: string)
    | StatusNotFound(message: string)
    | SeatsConflict(invalidSeats: seq<string>)
    | StatusFailed(message: string)
    | PaymentStatus(status: string)
  {
    function Status(): int
    {
      match this
      case StatusRejected(_) => 400
      case StatusNotFound(_) => 404
      case SeatsConflict(_) => 409
      case StatusFailed(_) => 500
      case PaymentStatus(_) => 200
    }
  }

  /** What a completed finalization of order `i` leaves behind: the
      order, and only it, is paid; every seat document of the order is
      unavailable and unselected and every other is untouched; the
      order's locks are gone and every other lock is untouched; the date's
      view is rebuilt from the updated seats and every other view is
      untouched. */
  predicate AfterFinalize(st: Backend, st': Backend, i: nat)
    requires i < |st.orders|
  {
    var o := st.orders[i];
    var refs := Refs(o.selectedSeats);
    && st'.orders == st.orders[i := o.(paid := true)]
    && |st'.seats| == |st.seats|
    && (forall j :: 0 <= j < |st.seats| && Listed(st.seats[j], o.selectedDate, refs) ==>
          !st'.seats[j].available && !st'.seats[j].selected
          && st'.seats[j].date == st.seats[j].date && st'.seats[j].rowLabel == st.seats[j].rowLabel
          && st'.seats[j].number == st.seats[j].number && st'.seats[j].seatType == st.seats[j].seatType)
    && (forall j :: 0 <= j < |st.seats| && !Listed(st.seats[j], o.selectedDate, refs) ==>
          st'.seats[j] == st.seats[j])
    && st'.locks.Keys == st.locks.Keys - LockKeys(o.selectedDate, refs)
    && (forall k :: k in st'.locks ==> st'.locks[k] == st.locks[k])
    && CacheKey(o.selectedDate) in st'.cache
    && st'.cache[CacheKey(o.selectedDate)]
       == CacheEntry(GroupByRow(RetrieveSeatListByDate(st'.seats, o.selectedDate)), SEAT_TTL_SECONDS)
    && (forall k :: k in st.cache && k != CacheKey(o.selectedDate) ==> k in st'.cache && st'.cache[k] == st.cache[k])
  }

  /** The finalize sequence for order `i`, re-verified against the polling
      request's session: on any invalid seat nothing changes; otherwise
      the order is paid, then its seats are made unavailable, then their
      locks are deleted, then the date's seat view is deleted and rebuilt. */
  function Finalize(st: Backend, i: nat, requester: string): (r: (seq<string>, Backend))
    requires i < |st.orders|
    ensures var o := st.orders[i];
      r.0 == VerifySeats(st.seats, st.locks, o.selectedDate, Refs(o.selectedSeats), requester)
    ensures r.0 != [] ==> r.1 == st
    ensures r.0 == [] ==> AfterFinalize(st, r.1, i)
  {
    var o := st.orders[i];
    var refs := Refs(o.selectedSeats);
    var invalid := VerifySeats(st.seats, st.locks, o.selectedDate, refs, requester);
    if |invalid| > 0 then (invalid, st)
    else
      var orders := st.orders[i := o.(paid := true)];
      var seats := MarkSeatsUnavailable(st.seats, o.selectedDate, refs);
      var locks := DeleteLocks(st.locks, o.selectedDate, refs);
      var cache := RefreshSeatCache(seats, Invalidate(st.cache, o.selectedDate), o.selectedDate);
      ([], Backend(seats, locks, orders, cache))
  }

  /** The writes of the finalize sequence, in the order the handler makes
      them: mark the order paid, take its seats off sale, delete its seat
      locks one by one, delete the date's seat view, rebuild it. */
  datatype FinalizeWrite =
    | MarkPaid
    | SellSeats
    | DropLocks(deleted: nat)
    | DropView
    | RebuildView

  /** What fails, if anything, once payment has succeeded: a write throws
      (`DropLocks(k)`: the DEL after the first `k` seats' DELs), or
      `QRCode.toDataURL` throws after every write is done. */
  datatype Fault = NoFault | WriteThrows(at: FinalizeWrite) | QrImageThrows

  /** The state the writes before `at` leave behind: nothing is undone. */
  function Interrupted(st: Backend, i: nat, at: FinalizeWrite): (r: Backend)
    requires i < |st.orders|
    ensures at != MarkPaid ==> r.orders == st.orders[i := st.orders[i].(paid := true)]
    ensures at == MarkPaid ==> r == st
    ensures at == MarkPaid || at == SellSeats ==> r.seats == st.seats && r.locks == st.locks
    ensures r.locks.Keys <= st.locks.Keys && forall k :: k in r.locks ==> r.locks[k] == st.locks[k]
  {
    var o := st.orders[i];
    var refs := Refs(o.selectedSeats);
    var paid := st.(orders := st.orders[i := o.(paid := true)]);
    var sold := paid.(seats := MarkSeatsUnavailable(st.seats, o.selectedDate, refs));
    match at
    case MarkPaid => st
    case SellSeats => paid
    case DropLocks(k) =>
      sold.(locks := DeleteLocks(st.locks, o.selectedDate, refs[..if k < |refs| then k else |refs|]))
    case DropView => sold.(locks := DeleteLocks(st.locks, o.selectedDate, refs))
    case RebuildView =>
      sold.(locks := DeleteLocks(st.locks, o.selectedDate, refs), cache := Invalidate(st.cache, o.selectedDate))
  }

  /** The `succeeded` branch for an unpaid order: finalize it, answer 409
      with the invalid seats if verification fails, and otherwise answer
      with the payment status. A throwing write answers 500 through the
      handler's `catch` and keeps the writes made before it. With mail
      configured, a missing QR-code secret answers 500, and so does a
      failing QR image; both come after the order has been finalized. */
  function SettlePaid(st: Backend, i: nat, requester: string, mail: MailConfig, fault: Fault): (r: (StatusOutcome, Backend))
    requires i < |st.orders|
    ensures var o := st.orders[i];
      var invalid := Finalize(st, i, requester).0;
      && (r.0.SeatsConflict? <==> invalid != [])
      && (r.0.SeatsConflict? ==> r == (SeatsConflict(invalid), st))
      && (!r.0.SeatsConflict? ==>
            forall j :: 0 <= j < |o.selectedSeats| ==>
              SeatValid(st.seats, st.locks, o.selectedDate, RefOf(o.selectedSeats[j]), requester))
    ensures !r.0.SeatsConflict? && fault.WriteThrows? ==>
      r == (StatusFailed("Failed to retrieve payment status"), Interrupted(st, i, fault.at))
    ensures !r.0.SeatsConflict? && !fault.WriteThrows? ==>
      && AfterFinalize(st, r.1, i)
      && (r.0.StatusFailed? <==> mail.mailKey && (!mail.qrSecret || fault.QrImageThrows?))
      && (mail.mailKey && !mail.qrSecret ==>
            r.0 == StatusFailed("Server configuration error for QR code generation."))
      && (mail.mailKey && mail.qrSecret && fault.QrImageThrows? ==>
            r.0 == StatusFailed("Failed to retrieve payment status"))
      && (!r.0.StatusFailed? ==> r.0 == PaymentStatus("succeeded"))
  {
    var (invalid, st') := Finalize(st, i, requester);
    if |invalid| > 0 then (SeatsConflict(invalid), st)
    else
      FinalizePassed(st, i, requester);
      if fault.WriteThrows? then (StatusFailed("Failed to retrieve payment status"), Interrupted(st, i, fault.at))
      else if mail.mailKey && !mail.qrSecret then
        (StatusFailed("Server configuration error for QR code generation."), st')
      else if mail.mailKey && fault.QrImageThrows? then (StatusFailed("Failed to retrieve payment status"), st')
      else (PaymentStatus("succeeded"), st')
  }

  /** A finalization that reports no invalid seat found every seat of the
      order available and locked by the requester. */
  lemma FinalizePassed(st: Backend, i: nat, requester: string)
    requires i < |st.orders|
    requires Finalize(st, i, requester).0 == []
    ensures var o := st.orders[i];
      forall j :: 0 <= j < |o.selectedSeats| ==>
        SeatValid(st.seats, st.locks, o.selectedDate, RefOf(o.selectedSeats[j]), requester)
  {
    var o := st.orders[i];
    var refs := Refs(o.selectedSeats);
    assert VerifySeats(st.seats, st.locks, o.selectedDate, refs, requester) == [];
    forall j | 0 <= j < |o.selectedSeats|
      ensures SeatValid(st.seats, st.locks, o.selectedDate, RefOf(o.selectedSeats[j]), requester)
    {
      assert refs[j] == RefOf(o.selectedSeats[j]);
    }
  }

  /** Whether the poll reaches the finalize sequence: a well-formed id of
      an existing, unpaid order with a checkout session, and a payment
      that succeeded. */
  predicate ReachesFinalize(st: Backend, id: string, payment: PaymentLookup)
  {
    && IsOrderId(id)
    && FindOrder(st.orders, id).Some?
    && st.orders[FindOrder(st.orders, id).value].checkoutSessionId != ""
    && !st.orders[FindOrder(st.orders, id).value].paid
    && payment == IntentStatus("succeeded")
  }

  /** `GET /order-status/:id`. Finalization runs only when the payment
      succeeded and the order is not yet paid; what it leaves behind when
      something in it fails is `SettlePaid`'s. */
  function OrderStatus(st: Backend, id: string, requester: string, payment: PaymentLookup, mail: MailConfig,
                       fault: Fault): (r: (StatusOutcome, Backend))
    ensures id == "" ==> r == (StatusRejected("Missing the order ID"), st)
    ensures id != "" && !IsOrderId(id) ==> r == (StatusNotFound("Order not found"), st)
    ensures IsOrderId(id) && FindOrder(st.orders, id).None? ==> r == (StatusNotFound("Order not found"), st)
    // An existing order: the checkout session, then the provider's answers in turn.
    ensures IsOrderId(id) && FindOrder(st.orders, id).Some? ==>
      var o := st.orders[FindOrder(st.orders, id).value];
      && (o.checkoutSessionId == "" ==> r == (StatusRejected("Session ID is required"), st))
      && (o.checkoutSessionId != "" ==>
            && (payment == SessionNotFound ==> r == (StatusNotFound("Session not found"), st))
            && (payment == NoPaymentIntent ==>
                  r == (StatusNotFound("Payment intent not found for this session"), st))
            && (payment == IntentDetailsNotFound ==> r == (StatusNotFound("Payment intent details not found"), st))
            && (payment == ProviderFailed ==> r == (StatusFailed("Failed to retrieve payment status"), st))
            && (payment.IntentStatus? && !(payment.status == "succeeded" && !o.paid) ==>
                  r == (PaymentStatus(payment.status), st)))
    // Only a succeeded payment for an unpaid order can change anything.
    ensures !ReachesFinalize(st, id, payment) ==> r.1 == st
    ensures ReachesFinalize(st, id, payment) ==>
      r == SettlePaid(st, FindOrder(st.orders, id).value, requester, mail, fault)
  {
    match CheckOrderId(id)
    case MissingId => (StatusRejected("Missing the order ID"), st)
    case MalformedId => (StatusNotFound("Order not found"), st)
    case WellFormedId =>
      match FindOrder(st.orders, id)
      case None => (StatusNotFound("Order not found"), st)
      case Some(i) => PollOrder(st, i, requester, payment, mail, fault)
  }

  /** The poll for the order found at `i`: the checkout session, then the
      provider's answers in turn. */
  function PollOrder(st: Backend, i: nat, requester: string, payment: PaymentLookup, mail: MailConfig,
                     fault: Fault): (r: (StatusOutcome, Backend))
    requires i < |st.orders|
    ensures var o := st.orders[i];
      && (o.checkoutSessionId == "" ==> r == (StatusRejected("Session ID is required"), st))
      && (o.checkoutSessionId != "" ==>
            && (payment == SessionNotFound ==> r == (StatusNotFound("Session not found"), st))
            && (payment == NoPaymentIntent ==>
                  r == (StatusNotFound("Payment intent not found for this session"), st))
            && (payment == IntentDetailsNotFound ==> r == (StatusNotFound("Payment intent details not found"), st))
            && (payment == ProviderFailed ==> r == (StatusFailed("Failed to retrieve payment status"), st))
            && (payment.IntentStatus? && !(payment.status == "succeeded" && !o.paid) ==>
                  r == (PaymentStatus(payment.status), st)))
    ensures var o := st.orders[i];
      o.checkoutSessionId != "" && !o.paid && payment == IntentStatus("succeeded") ==>
        r == SettlePaid(st, i, requester, mail, fault)
    ensures var o := st.orders[i];
      !(o.checkoutSessionId != "" && !o.paid && payment == IntentStatus("succeeded")) ==> r.1 == st
  {
    var o := st.orders[i];
    if o.checkoutSessionId == "" then (StatusRejected("Session ID is required"), st)
    else
      match payment
      case SessionNotFound => (StatusNotFound("Session not found"), st)
      case NoPaymentIntent => (StatusNotFound("Payment intent not found for this session"), st)
      case IntentDetailsNotFound => (StatusNotFound("Payment intent details not found"), st)
      case ProviderFailed => (StatusFailed("Failed to retrieve payment status"), st)
      case IntentStatus(status) =>
        if status == "succeeded" && !o.paid then SettlePaid(st, i, requester, mail, fault)
        else (PaymentStatus(status), st)
  }

  /** The status poll with the finalize writes made all-or-nothing: when
      one of them throws, none of them persists, so the order stays unpaid
      and its seats stay locked for the next poll to finalize. The answer
      is the handler's. */
  function OrderStatusAtomic(st: Backend, id: string, requester: string, payment: PaymentLookup, mail: MailConfig,
                             fault: Fault): (r: (StatusOutcome, Backend))
    ensures r.0 == OrderStatus(st, id, requester, payment, mail, fault).0
    ensures fault.WriteThrows? ==> r.1 == st
    ensures !fault.WriteThrows? ==> r.1 == OrderStatus(st, id, requester, payment, mail, fault).1
  {
    var (answer, st') := OrderStatus(st, id, requester, payment, mail, fault);
    if fault.WriteThrows? then (answer, st) else (answer, st')
  }
}
