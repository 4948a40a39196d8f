/** The property the order flow exists to keep: no seat of a date is sold
    to two paid orders. The backend moves only through the order-creating
    request, the status poll, and the environment acquiring or losing seat
    locks; the invariant below holds initially and after every such step. */
module Invariants {
  import opened Wrappers
  import opened Json
  import opened SeatStore
  import opened Locks
  import opened SeatVerification
  import opened SeatCache
  import opened Orders
  import opened OrderRequests
  import Text

  /** Every seat of every paid order is sold in the seat collection. */
  predicate PaidSeatsSold(st: Backend)
  {
    forall i, k :: 0 <= i < |st.orders| && st.orders[i].paid && 0 <= k < |st.orders[i].selectedSeats| ==>
      Sold(st.seats, st.orders[i].selectedDate, RefOf(st.orders[i].selectedSeats[k]))
  }

  /** Two different orders share a seat of the same date. */
  predicate ShareSeat(a: Order, b: Order)
  {
    && a.selectedDate == b.selectedDate
    && exists k, m :: (0 <= k < |a.selectedSeats| && 0 <= m < |b.selectedSeats|
         && RefOf(a.selectedSeats[k]) == RefOf(b.selectedSeats[m]))
  }

  /** No two paid orders hold the same seat. */
  predicate NoDoubleSale(st: Backend)
  {
    forall i, j :: (0 <= i < |st.orders| && 0 <= j < |st.orders| && i != j
      && st.orders[i].paid && st.orders[j].paid) ==> !ShareSeat(st.orders[i], st.orders[j])
  }

  predicate Inv(st: Backend)
  {
    PaidSeatsSold(st) && NoDoubleSale(st)
  }

  /** A fresh backend: no order has been paid yet. */
  predicate Init(st: Backend)
  {
    forall i :: 0 <= i < |st.orders| ==> !st.orders[i].paid
  }

  /** What can happen to the backend. */
  datatype Event =
    | Create(body: map<string, Value>, sessionId: string, saved: Option<NewOrder>)
    | Poll(id: string, requester: string, payment: PaymentLookup, mail: MailConfig, fault: Fault)
    | LockSeat(key: string, owner: string, ttl: int)
    | LockLapses(key: string)

  /** One event, with the finalize writes of a poll made all-or-nothing
      (`OrderStatusAtomic`). As written, a throwing write keeps the writes
      before it, and `InterruptedFinalizeSellsTwice` below shows where that
      leads. */
  function Step(st: Backend, e: Event): Backend
  {
    match e
    case Create(body, sessionId, saved) => CreateOrder(st, body, sessionId, saved).1
    case Poll(id, requester, payment, mail, fault) => OrderStatusAtomic(st, id, requester, payment, mail, fault).1
    case LockSeat(key, owner, ttl) => st.(locks := Acquire(st.locks, key, owner, ttl).0)
    case LockLapses(key) => st.(locks := Lapse(st.locks, key))
  }

  function Run(st: Backend, events: seq<Event>): Backend
    decreases |events|
  {
    if |events| == 0 then st else Run(Step(st, events[0]), events[1..])
  }

  /** The initial state satisfies the invariant. */
  lemma InitInv(st: Backend)
    requires Init(st)
    ensures Inv(st)
  {
  }

  /** A step that leaves the seats and the existing orders alone, and at
      most appends unpaid orders, keeps the invariant. */
  lemma AppendUnpaidKeepsInv(st: Backend, st': Backend)
    requires Inv(st)
    requires st'.seats == st.seats
    requires |st'.orders| >= |st.orders| && st'.orders[..|st.orders|] == st.orders
    requires forall i :: |st.orders| <= i < |st'.orders| ==> !st'.orders[i].paid
    ensures Inv(st')
  {
    forall i | 0 <= i < |st.orders|
      ensures st'.orders[i] == st.orders[i]
    {
      assert st'.orders[..|st.orders|][i] == st'.orders[i];
    }
  }

  /** Order creation never sells a seat and never pays an order. */
  lemma CreateKeepsInv(st: Backend, body: map<string, Value>, sessionId: string, saved: Option<NewOrder>)
    requires Inv(st)
    ensures Inv(CreateOrder(st, body, sessionId, saved).1)
  {
    match ParseCreateRequest(body)
    case Err(_) =>
    case Ok(q) => PlaceKeepsInv(st, q, sessionId, saved);
  }

  lemma PlaceKeepsInv(st: Backend, q: CreateRequest, sessionId: string, saved: Option<NewOrder>)
    requires Inv(st)
    requires q.date != "" && |q.seats| > 0
    ensures Inv(PlaceOrder(st, q, sessionId, saved).1)
  {
    var r := PlaceOrder(st, q, sessionId, saved);
    if !r.0.SeatsUnavailable? {
      var st' := r.1;
      assert st'.seats == st.seats;
      if r.0.Created? {
        assert AppendedOrder(st.orders, st'.orders, q.fields, q.date, q.seats, saved.value);
        assert !st'.orders[|st.orders|].paid;
      } else {
        assert st'.orders == st.orders;
        assert st'.orders[..|st.orders|] == st.orders;
      }
      AppendUnpaidKeepsInv(st, st');
    }
  }

  /** Finalization only takes seats off sale. */
  lemma FinalizeNarrows(st: Backend, i: nat, st': Backend)
    requires i < |st.orders|
    requires AfterFinalize(st, st', i)
    ensures Narrowed(st.seats, st'.seats)
  {
    var o := st.orders[i];
    var refs := Refs(o.selectedSeats);
    forall j | 0 <= j < |st.seats|
      ensures st'.seats[j].date == st.seats[j].date && st'.seats[j].rowLabel == st.seats[j].rowLabel
      ensures st'.seats[j].number == st.seats[j].number
      ensures st'.seats[j].available ==> st.seats[j].available
    {
      if !Listed(st.seats[j], o.selectedDate, refs) {
        assert st'.seats[j] == st.seats[j];
      }
    }
  }

  /** After finalizing order `i`, every seat of it that has a document is sold. */
  lemma FinalizeSells(st: Backend, i: nat, st': Backend, k: nat)
    requires i < |st.orders| && k < |st.orders[i].selectedSeats|
    requires AfterFinalize(st, st', i)
    requires FindSeat(st.seats, st.orders[i].selectedDate, RefOf(st.orders[i].selectedSeats[k])).Some?
    ensures Sold(st'.seats, st.orders[i].selectedDate, RefOf(st.orders[i].selectedSeats[k]))
  {
    var o := st.orders[i];
    var refs := Refs(o.selectedSeats);
    var date := o.selectedDate;
    var r := RefOf(o.selectedSeats[k]);
    assert refs[k] == r;
    FinalizeNarrows(st, i, st');
    FindSeatNarrowed(st.seats, st'.seats, date, r);
    var found := FindSeat(st'.seats, date, r);
    var j :| 0 <= j < |st'.seats| && st'.seats[j] == found.value && IsSeat(st'.seats[j], date, r);
    assert Listed(st.seats[j], date, refs);
  }

  /** Finalization pays order `i` and leaves every other order as it was. */
  lemma FinalizeOrders(st: Backend, i: nat, st': Backend)
    requires i < |st.orders|
    requires AfterFinalize(st, st', i)
    ensures |st'.orders| == |st.orders|
    ensures st'.orders[i].paid
    ensures st'.orders[i].selectedDate == st.orders[i].selectedDate
    ensures st'.orders[i].selectedSeats == st.orders[i].selectedSeats
    ensures forall a :: 0 <= a < |st.orders| && a != i ==> st'.orders[a] == st.orders[a]
  {
  }

  /** Finalizing an order whose seats all verify keeps every paid order's
      seats sold. */
  lemma FinalizeKeepsSold(st: Backend, i: nat, requester: string, st': Backend)
    requires Inv(st)
    requires i < |st.orders|
    requires forall k :: 0 <= k < |st.orders[i].selectedSeats| ==>
      SeatValid(st.seats, st.locks, st.orders[i].selectedDate, RefOf(st.orders[i].selectedSeats[k]), requester)
    requires AfterFinalize(st, st', i)
    ensures PaidSeatsSold(st')
  {
    FinalizeNarrows(st, i, st');
    FinalizeOrders(st, i, st');
    forall a, k | 0 <= a < |st'.orders| && st'.orders[a].paid && 0 <= k < |st'.orders[a].selectedSeats|
      ensures Sold(st'.seats, st'.orders[a].selectedDate, RefOf(st'.orders[a].selectedSeats[k]))
    {
      if a == i {
        assert SeatValid(st.seats, st.locks, st.orders[i].selectedDate, RefOf(st.orders[i].selectedSeats[k]), requester);
        FinalizeSells(st, i, st', k);
      } else {
        FindSeatNarrowed(st.seats, st'.seats, st.orders[a].selectedDate, RefOf(st.orders[a].selectedSeats[k]));
      }
    }
  }

  /** Finalizing an order whose seats all verify pays no seat twice: its
      seats were on sale, so no paid order held them. */
  lemma FinalizeKeepsSingleSale(st: Backend, i: nat, requester: string, st': Backend)
    requires Inv(st)
    requires i < |st.orders|
    requires forall k :: 0 <= k < |st.orders[i].selectedSeats| ==>
      SeatValid(st.seats, st.locks, st.orders[i].selectedDate, RefOf(st.orders[i].selectedSeats[k]), requester)
    requires AfterFinalize(st, st', i)
    ensures NoDoubleSale(st')
  {
    FinalizeOrders(st, i, st');
    forall other | 0 <= other < |st.orders| && other != i && st.orders[other].paid
      ensures !ShareSeat(st.orders[i], st.orders[other]) && !ShareSeat(st.orders[other], st.orders[i])
    {
      if ShareSeat(st.orders[other], st.orders[i]) {
        assert false;
      }
      ShareSeatSymmetric(st.orders[i], st.orders[other]);
    }
  }

  lemma ShareSeatSymmetric(a: Order, b: Order)
    ensures ShareSeat(a, b) <==> ShareSeat(b, a)
  {
    if ShareSeat(a, b) {
      var k, m :| 0 <= k < |a.selectedSeats| && 0 <= m < |b.selectedSeats|
        && RefOf(a.selectedSeats[k]) == RefOf(b.selectedSeats[m]);
      assert RefOf(b.selectedSeats[m]) == RefOf(a.selectedSeats[k]);
    }
    if ShareSeat(b, a) {
      var k, m :| 0 <= k < |b.selectedSeats| && 0 <= m < |a.selectedSeats|
        && RefOf(b.selectedSeats[k]) == RefOf(a.selectedSeats[m]);
      assert RefOf(a.selectedSeats[m]) == RefOf(b.selectedSeats[k]);
    }
  }

  /** The status poll keeps the invariant when no finalize write throws,
      and always once those writes are all-or-nothing. */
  lemma PollKeepsInv(st: Backend, id: string, requester: string, payment: PaymentLookup, mail: MailConfig, fault: Fault)
    requires Inv(st)
    ensures !fault.WriteThrows? ==> Inv(OrderStatus(st, id, requester, payment, mail, fault).1)
    ensures Inv(OrderStatusAtomic(st, id, requester, payment, mail, fault).1)
  {
    var r := OrderStatus(st, id, requester, payment, mail, fault);
    if ReachesFinalize(st, id, payment) {
      var i := FindOrder(st.orders, id).value;
      if !r.0.SeatsConflict? && !fault.WriteThrows? {
        FinalizeKeepsSold(st, i, requester, r.1);
        FinalizeKeepsSingleSale(st, i, requester, r.1);
      }
    }
  }

  lemma StepKeepsInv(st: Backend, e: Event)
    requires Inv(st)
    ensures Inv(Step(st, e))
  {
    match e
    case Create(body, sessionId, saved) => CreateKeepsInv(st, body, sessionId, saved);
    case Poll(id, requester, payment, mail, fault) => PollKeepsInv(st, id, requester, payment, mail, fault);
    case LockSeat(key, owner, ttl) =>
    case LockLapses(key) =>
  }

  /** Whatever requests arrive and whatever happens to the locks, no seat is
      ever sold twice. */
  lemma {:induction false} RunKeepsInv(st: Backend, events: seq<Event>)
    requires Inv(st)
    ensures Inv(Run(st, events))
    decreases |events|
  {
    if |events| > 0 {
      StepKeepsInv(st, events[0]);
      RunKeepsInv(Step(st, events[0]), events[1..]);
    }
  }

  lemma NoSeatSoldTwice(st: Backend, events: seq<Event>)
    requires Init(st)
    ensures NoDoubleSale(Run(st, events))
  {
    InitInv(st);
    RunKeepsInv(st, events);
  }

  /** A seat a paid order holds never verifies again, for any requester:
      a second finalization of an order sharing it answers 409. */
  lemma SoldSeatNeverVerifies(st: Backend, i: nat, j: nat, requester: string)
    requires Inv(st)
    requires i < |st.orders| && j < |st.orders| && st.orders[i].paid
    requires ShareSeat(st.orders[i], st.orders[j])
    ensures Finalize(st, j, requester).0 != []
  {
    var a := st.orders[i];
    var b := st.orders[j];
    var k, m :| 0 <= k < |a.selectedSeats| && 0 <= m < |b.selectedSeats|
      && RefOf(a.selectedSeats[k]) == RefOf(b.selectedSeats[m]);
    assert Sold(st.seats, a.selectedDate, RefOf(a.selectedSeats[k]));
    assert !SeatValid(st.seats, st.locks, b.selectedDate, Refs(b.selectedSeats)[m], requester);
  }

  /** Orders are found by id alone: paying one does not move any lookup. */
  lemma FindOrderIgnoresPaid(orders: seq<Order>, i: nat, id: string)
    requires i < |orders|
    ensures FindOrder(orders[i := orders[i].(paid := true)], id) == FindOrder(orders, id)
  {
    var after := orders[i := orders[i].(paid := true)];
    assert forall j :: 0 <= j < |orders| ==> after[j].id == orders[j].id;
  }

  /** After a poll, the order it polled no longer reaches the finalize
      sequence: either nothing changed, or the order is paid now. */
  lemma PollSettles(st: Backend, id: string, requester: string, payment: PaymentLookup, mail: MailConfig, fault: Fault)
    ensures var st' := OrderStatusAtomic(st, id, requester, payment, mail, fault).1;
      st' == st || !ReachesFinalize(st', id, payment)
  {
    var r := OrderStatus(st, id, requester, payment, mail, fault);
    if ReachesFinalize(st, id, payment) && !r.0.SeatsConflict? && !fault.WriteThrows? {
      var i := FindOrder(st.orders, id).value;
      FinalizeOrders(st, i, r.1);
      FindOrderIgnoresPaid(st.orders, i, id);
      assert r.1.orders == st.orders[i := st.orders[i].(paid := true)];
    }
  }

  /** Polling again changes nothing. Once a poll has finalized the order,
      a later poll by anyone, with any mail configuration and whatever
      fails, leaves the state alone; a poll that changed nothing changes
      nothing when repeated. */
  lemma PollIdempotent(st: Backend, id: string, requester: string, payment: PaymentLookup, mail: MailConfig,
                       fault: Fault, requester2: string, mail2: MailConfig, fault2: Fault)
    ensures var st' := OrderStatusAtomic(st, id, requester, payment, mail, fault).1;
      && (st' != st ==> OrderStatusAtomic(st', id, requester2, payment, mail2, fault2).1 == st')
      && OrderStatusAtomic(st', id, requester, payment, mail, fault).1 == st'
  {
    PollSettles(st, id, requester, payment, mail, fault);
  }

  /** A seat-lock key never names a seat-view entry: the two key spaces of
      the shared cache differ at their fifth character. */
  lemma LockAndViewKeysDisjoint(date: string, r: SeatRef, date2: string)
    ensures LockKey(date, r) != CacheKey(date2)
  {
    assert LockKey(date, r)[4] == 'l';
    assert CacheKey(date2)[4] == 's';
  }

  // ---------------------------------------------------------------------
  // The finalize sequence as written

  /** An order for seat A1 on `date`, awaiting payment. */
  function SeatA1Order(id: string, date: string, checkoutSessionId: string): Order
  {
    Order(id, Str("Ann"), Str("Lee"), Str("ann@example.com"), Str("0211234"), false, 0,
          date, [OrderSeat("A", 1, Standard)], 35, checkoutSessionId, false)
  }

  /** Two unpaid orders for A1, the seat on sale, and session `sa`
      holding its lock. (Another session placed order B while it held the
      lock; the lock lapsed, and `sa` took it and placed order A.) No order
      is paid, so the state satisfies `Init`. */
  function TwoBuyers(date: string, idA: string, idB: string, sa: string): Backend
  {
    Backend([Seat(date, "A", 1, true, false, Standard)],
            map[LockKey(date, SeatRef("A", 1)) := Lock(sa, ORDER_LOCK_TTL_SECONDS)],
            [SeatA1Order(idA, date, "cs_a"), SeatA1Order(idB, date, "cs_b")],
            map[])
  }

  /** Two distinct order ids in the lower-case form the store keeps. */
  predicate TwoIds(idA: string, idB: string)
  {
    IsOrderId(idA) && IsOrderId(idB) && Text.LowerCase(idA) == idA && Text.LowerCase(idB) == idB && idA != idB
  }

  /** The mail settings of the example: no mail is sent. */
  const NO_MAIL := MailConfig(false, false)

  /** The lock `key` after its holder's TTL ran out and `sb` took it. */
  function Retaken(locks: LockMap, key: string, sb: string): LockMap
  {
    Acquire(Lapse(locks, key), key, sb, ORDER_LOCK_TTL_SECONDS).0
  }

  /** As written, a write failure part-way through finalization can sell a
      seat twice. Orders A and B, both unpaid, share a seat; A's seats
      verify for session `sa`. A's poll marks A paid, and then
      `markSeatsUnavailable` throws, so the seats stay on sale. The lock
      `key` lapses and session `sb` takes it, after which B's seats verify
      for `sb`; B's poll finalizes B. Afterwards both orders are paid and
      share a seat. `TwoBuyersQualify` gives a state meeting every
      condition. */
  lemma InterruptedFinalizeSellsTwice(st0: Backend, idA: string, idB: string, sa: string, sb: string, key: string)
    requires |st0.orders| == 2 && st0.orders[0].id == idA && st0.orders[1].id == idB && TwoIds(idA, idB)
    requires st0.orders[0].checkoutSessionId != "" && !st0.orders[0].paid
    requires st0.orders[1].checkoutSessionId != "" && !st0.orders[1].paid
    requires ShareSeat(st0.orders[0], st0.orders[1])
    requires Finalize(st0, 0, sa).0 == []
    requires var b := st0.orders[1];
      VerifySeats(st0.seats, Retaken(st0.locks, key, sb), b.selectedDate, Refs(b.selectedSeats), sb) == []
    ensures OrderStatus(st0, idA, sa, IntentStatus("succeeded"), NO_MAIL, WriteThrows(SellSeats))
         == (StatusFailed("Failed to retrieve payment status"), Interrupted(st0, 0, SellSeats))
    ensures var st1 := Interrupted(st0, 0, SellSeats);
      var st3 := st1.(locks := Retaken(st1.locks, key, sb));
      var st4 := OrderStatus(st3, idB, sb, IntentStatus("succeeded"), NO_MAIL, NoFault).1;
      && |st4.orders| == 2 && st4.orders[0].paid && st4.orders[1].paid
      && ShareSeat(st4.orders[0], st4.orders[1])
      && !NoDoubleSale(st4)
  {
    FirstPollInterrupted(st0, idA, sa);
    var st1 := Interrupted(st0, 0, SellSeats);
    var st3 := st1.(locks := Retaken(st1.locks, key, sb));
    InterruptedLeavesSeatOnSale(st0, idA, idB, sb, key);
    PayingASharedSeatSellsTwice(st3, idB, sb);
  }

  /** A's poll: the seats verify, A is marked paid, and the seat write
      throws; the handler answers 500. */
  lemma FirstPollInterrupted(st0: Backend, idA: string, sa: string)
    requires |st0.orders| == 2 && st0.orders[0].id == idA && TwoIds(idA, st0.orders[1].id)
    requires st0.orders[0].checkoutSessionId != "" && !st0.orders[0].paid
    requires Finalize(st0, 0, sa).0 == []
    ensures OrderStatus(st0, idA, sa, IntentStatus("succeeded"), NO_MAIL, WriteThrows(SellSeats))
         == (StatusFailed("Failed to retrieve payment status"), Interrupted(st0, 0, SellSeats))
  {
    OrderIdsFound(st0.orders);
    SucceededPoll(st0, idA, sa, WriteThrows(SellSeats));
  }

  /** After A's interrupted finalization and the lock changing hands, A is
      paid, B is as it was, and B's seats still verify for `sb`. */
  lemma InterruptedLeavesSeatOnSale(st0: Backend, idA: string, idB: string, sb: string, key: string)
    requires |st0.orders| == 2 && st0.orders[0].id == idA && st0.orders[1].id == idB && TwoIds(idA, idB)
    requires ShareSeat(st0.orders[0], st0.orders[1])
    requires var b := st0.orders[1];
      VerifySeats(st0.seats, Retaken(st0.locks, key, sb), b.selectedDate, Refs(b.selectedSeats), sb) == []
    ensures var st1 := Interrupted(st0, 0, SellSeats);
      var st3 := st1.(locks := Retaken(st1.locks, key, sb));
      && st3.orders == [st0.orders[0].(paid := true), st0.orders[1]]
      && ShareSeat(st3.orders[0], st3.orders[1])
      && FindOrder(st3.orders, idB) == Some(1)
      && Finalize(st3, 1, sb).0 == []
  {
    var st1 := Interrupted(st0, 0, SellSeats);
    var st3 := st1.(locks := Retaken(st1.locks, key, sb));
    assert st3.orders == [st0.orders[0].(paid := true), st0.orders[1]];
    OrderIdsFound(st3.orders);
    var a, b := st0.orders[0], st0.orders[1];
    var k, m :| 0 <= k < |a.selectedSeats| && 0 <= m < |b.selectedSeats|
      && RefOf(a.selectedSeats[k]) == RefOf(b.selectedSeats[m]);
    assert RefOf(st3.orders[0].selectedSeats[k]) == RefOf(st3.orders[1].selectedSeats[m]);
  }

  /** As written, nothing stops a poll from finalizing an order whose seat
      a paid order already holds: the store then has two paid orders for
      that seat. */
  lemma PayingASharedSeatSellsTwice(st: Backend, idB: string, sb: string)
    requires |st.orders| == 2 && IsOrderId(idB) && FindOrder(st.orders, idB) == Some(1)
    requires st.orders[0].paid && st.orders[1].checkoutSessionId != "" && !st.orders[1].paid
    requires ShareSeat(st.orders[0], st.orders[1])
    requires Finalize(st, 1, sb).0 == []
    ensures var st4 := OrderStatus(st, idB, sb, IntentStatus("succeeded"), NO_MAIL, NoFault).1;
      && |st4.orders| == 2 && st4.orders[0].paid && st4.orders[1].paid
      && ShareSeat(st4.orders[0], st4.orders[1])
      && !NoDoubleSale(st4)
  {
    SucceededPoll(st, idB, sb, NoFault);
    var st4 := OrderStatus(st, idB, sb, IntentStatus("succeeded"), NO_MAIL, NoFault).1;
    assert st4.orders[0] == st.orders[0] && st4.orders[1] == st.orders[1].(paid := true);
    SharedSeatSoldTwice(st4, st.orders[0], st.orders[1]);
  }

  /** Two paid orders sharing a seat break `NoDoubleSale`. */
  lemma SharedSeatSoldTwice(st: Backend, a: Order, b: Order)
    requires |st.orders| == 2 && st.orders[0] == a.(paid := true) && st.orders[1] == b.(paid := true)
    requires ShareSeat(a, b)
    ensures ShareSeat(st.orders[0], st.orders[1])
    ensures !NoDoubleSale(st)
  {
    var orders := st.orders;
    var k, m :| 0 <= k < |a.selectedSeats| && 0 <= m < |b.selectedSeats|
      && RefOf(a.selectedSeats[k]) == RefOf(b.selectedSeats[m]);
    assert RefOf(orders[0].selectedSeats[k]) == RefOf(orders[1].selectedSeats[m]);
  }

  /** The two-buyer state meets the conditions of the double sale. */
  lemma TwoBuyersQualify(date: string, idA: string, idB: string, sa: string, sb: string)
    requires date != "" && TwoIds(idA, idB)
    ensures var st0 := TwoBuyers(date, idA, idB, sa);
      var key := LockKey(date, SeatRef("A", 1));
      var b := st0.orders[1];
      && Init(st0)
      && ShareSeat(st0.orders[0], st0.orders[1])
      && Finalize(st0, 0, sa).0 == []
      && VerifySeats(st0.seats, Retaken(st0.locks, key, sb), b.selectedDate, Refs(b.selectedSeats), sb) == []
  {
    var st0 := TwoBuyers(date, idA, idB, sa);
    HolderSeatVerifies(date, idA, idB, sa);
    RetakenSeatVerifies(date, idA, idB, sa, sb);
    assert RefOf(st0.orders[0].selectedSeats[0]) == RefOf(st0.orders[1].selectedSeats[0]);
  }

  /** A's seat verifies for `sa`, which holds A1's lock. */
  lemma HolderSeatVerifies(date: string, idA: string, idB: string, sa: string)
    requires date != ""
    ensures Finalize(TwoBuyers(date, idA, idB, sa), 0, sa).0 == []
  {
    SeatA1Verifies(TwoBuyers(date, idA, idB, sa), 0, sa);
  }

  /** Once `sb` has taken A1's lock, B's seat verifies for `sb`. */
  lemma RetakenSeatVerifies(date: string, idA: string, idB: string, sa: string, sb: string)
    requires date != ""
    ensures var st0 := TwoBuyers(date, idA, idB, sa);
      var b := st0.orders[1];
      VerifySeats(st0.seats, Retaken(st0.locks, LockKey(date, SeatRef("A", 1)), sb),
                  b.selectedDate, Refs(b.selectedSeats), sb) == []
  {
    var st0 := TwoBuyers(date, idA, idB, sa);
    var key := LockKey(date, SeatRef("A", 1));
    LockRetaken(st0.locks, key, sa, sb);
    SeatA1Verifies(st0.(locks := Retaken(st0.locks, key, sb)), 1, sb);
  }

  /** The lapse of `sa`'s lock lets `sb` take it. */
  lemma LockRetaken(locks: LockMap, key: string, sa: string, sb: string)
    requires locks == map[key := Lock(sa, ORDER_LOCK_TTL_SECONDS)]
    ensures Retaken(locks, key, sb) == map[key := Lock(sb, ORDER_LOCK_TTL_SECONDS)]
  {
    assert Lapse(locks, key) == map[];
  }

  /** The double sale needs nothing unusual of the ids: two distinct
      24-digit lower-case hex ids will do. */
  lemma ExampleIds()
    ensures TwoIds("aaaaaaaaaaaaaaaaaaaaaaaa", "bbbbbbbbbbbbbbbbbbbbbbbb")
  {
    var idA := "aaaaaaaaaaaaaaaaaaaaaaaa";
    var idB := "bbbbbbbbbbbbbbbbbbbbbbbb";
    assert Text.LowerCase(idA) == idA && Text.LowerCase(idB) == idB;
    assert idA[0] != idB[0];
  }

  /** A succeeded payment for an unpaid order whose seats verify, with no
      mail configured: a throwing write leaves the writes before it, and
      otherwise the order is paid. */
  lemma SucceededPoll(st: Backend, id: string, requester: string, fault: Fault)
    requires IsOrderId(id) && FindOrder(st.orders, id).Some?
    requires var o := st.orders[FindOrder(st.orders, id).value];
      o.checkoutSessionId != "" && !o.paid
    requires Finalize(st, FindOrder(st.orders, id).value, requester).0 == []
    ensures var i := FindOrder(st.orders, id).value;
      var r := OrderStatus(st, id, requester, IntentStatus("succeeded"), NO_MAIL, fault);
      && (fault.WriteThrows? ==> r == (StatusFailed("Failed to retrieve payment status"), Interrupted(st, i, fault.at)))
      && (!fault.WriteThrows? ==>
            r.0 == PaymentStatus("succeeded") && r.1.orders == st.orders[i := st.orders[i].(paid := true)])
  {
    assert ReachesFinalize(st, id, IntentStatus("succeeded"));
  }

  /** An order for A1 alone verifies for the session holding A1's lock
      while A1 is on sale. */
  lemma SeatA1Verifies(st: Backend, i: nat, session: string)
    requires i < |st.orders| && st.orders[i].selectedDate != ""
    requires st.orders[i].selectedSeats == [OrderSeat("A", 1, Standard)]
    requires st.seats == [Seat(st.orders[i].selectedDate, "A", 1, true, false, Standard)]
    requires OwnerOf(st.locks, LockKey(st.orders[i].selectedDate, SeatRef("A", 1))) == Some(session)
    ensures Finalize(st, i, session).0 == []
  {
    var date := st.orders[i].selectedDate;
    var a1 := SeatRef("A", 1);
    assert Refs(st.orders[i].selectedSeats) == [a1];
    assert FindSeat(st.seats, date, a1).Some?;
    assert SeatValid(st.seats, st.locks, date, a1, session);
  }

  /** Each order is found under its own id. */
  lemma OrderIdsFound(orders: seq<Order>)
    requires |orders| == 2 && TwoIds(orders[0].id, orders[1].id)
    ensures FindOrder(orders, orders[0].id) == Some(0) && FindOrder(orders, orders[1].id) == Some(1)
  {
  }
}
