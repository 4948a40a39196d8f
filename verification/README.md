# Ticketing seat core, modelled in Dafny

This project models the seat-handling core of a theatre ticketing system:
an Express/MongoDB/Redis backend and a React/Redux front end. It covers:

- **Seat store.** The dated seat collection and its three data-access
  functions: list a date's seats, list a date's unavailable seats, and mark
  seats unavailable.
- **Seat locks.** The Redis keys `seatlock:<date>:<row>-<number>`, each
  holding the owning session id and a TTL.
- **`verifySeats`.** The per-seat check that a seat document exists, is
  available, and is locked by the requesting session.
- **Seat view.** The per-date view `seats:<date>` that `refreshSeatCache`
  writes, and the same row grouping served by `GET /all`.
- **Orders router.** It covers:
  - the field-by-field validation of `POST /`, with the first failing check
    deciding the 400;
  - the seat-shape check;
  - verification, lock extension and order creation;
  - the order-id guard of `GET /:id` and `GET /order-status/:id`;
  - the status poll, whose `succeeded` branch finalizes a paid order. It
    marks the order paid, takes its seats off sale, deletes their locks and
    rebuilds the date's view.
- **Legacy routes.** `POST /create-order` validates, normalises seat codes
  like `021b` to `21B`, and saves. `POST /select` reserves a seat of the old
  seat schema.
- **QR-code route.** It parses the seat number, refuses a seat that any
  order of that date lists, and builds the signed payload
  `<seatNumber>:<date>.<hex signature>`.
- **Front end.** The seat-selection reducer (initialize, toggle a seat, mark
  a seat unavailable, choose a date), the seating-arrangement table of three
  wings of rows A to U, and the generator that builds a seat map from it.

The handlers become pure functions over an explicit backend state:
`Orders.Backend` holds the seat collection, the locks, the orders and the
seat views. Everything a handler obtains from outside that state is a
parameter:

- the requester's session id;
- whether the database save succeeded, and the id it assigned;
- the payment provider's answer;
- the mail and QR secrets;
- the keyed hash;
- which finalize write of a poll throws, if any, and whether the QR image
  fails (`Orders.Fault`);
- the random draws of the generator.

Request bodies and queries are a JSON-like `Json.Value`, where an absent
field is `None`. This lets the JavaScript truthiness (`!x`) and `typeof`
checks of the handlers be stated exactly.

The central result is `Invariants.NoSeatSoldTwice`. Consider any sequence
of these steps: order creations, status polls, and locks being acquired or
lapsing in the cache. Starting from a state with no paid order, no two
paid orders ever hold the same seat of the same date. Every paid order's
seats also stay sold. This holds with the finalize writes of a poll made
all-or-nothing. As written, a write that throws part-way keeps the writes
before it, and that can sell a seat twice (see Findings).

## Model

| member | source | states |
|---|---|---|
| SeatStore.FindSeat | packages/backend/src/utils/verifySeats.ts:11-21 | the document found for `(date, rowLabel, number)` is the first matching one in store order, and there is none exactly when no document matches |
| SeatStore.RetrieveSeatListByDate | packages/backend/src/data/seat-dao.ts:3-7 | every returned seat has the date, and each seat of that date occurs as often as in the store (others not at all) |
| SeatStore.RetrieveUnavailableSeatsByDate | packages/backend/src/data/seat-dao.ts:9-13 | only unavailable seats of the date are returned, each with its store multiplicity |
| SeatStore.MarkSeatsUnavailable | packages/backend/src/data/seat-dao.ts:15-30 | every listed seat of the date becomes unavailable and unselected with its identity and type kept; every other document is unchanged; an empty list changes nothing |
| SeatStore.MarkSeatsUnavailableIdempotent | packages/backend/src/data/seat-dao.ts:20-29 | applying the update twice equals applying it once |
| SeatStore.FindSeatNarrowed | packages/backend/src/data/seat-dao.ts:20-29 | after seats are only taken off sale, every seat still has its document, no seat becomes available again, and a sold seat stays sold |
| SeatStore.MarkSeatsUnavailableSells | packages/backend/src/data/seat-dao.ts:20-29 | the update only narrows the store, and every listed seat that has a document is sold afterwards |
| Locks.OwnerOf | packages/backend/src/utils/verifySeats.ts:26-28 | `GET` of a lock key yields an owner exactly when the lock exists, and then its owner |
| Locks.ExtendLocks | packages/backend/src/routes/api/api-orders.ts:134-137 | the set of locks and every owner are unchanged; locks of the listed seats get the new TTL and all others keep theirs (`EXPIRE` never creates a key) |
| Locks.DeleteLocks | packages/backend/src/routes/api/api-orders.ts:311-314 | exactly the listed seats' locks are gone and every other lock is unchanged |
| SeatVerification.CheckSeats | packages/backend/src/utils/verifySeats.ts:17-32 | the loop reports, in request order and once per occurrence, the ids of exactly the requested seats that are missing, unavailable, or not locked by the session |
| SeatVerification.InvalidSeatsStep | packages/backend/src/utils/verifySeats.ts:18-31 | one loop iteration: the first seat's id is reported exactly when it fails, followed by the report for the rest |
| SeatVerification.VerifySeats | packages/backend/src/utils/verifySeats.ts:4-33 | with no date every seat's id is reported; with no seats nothing is; otherwise the failing seats are; the report is empty exactly when there are no seats or every seat passes |
| SeatVerification.AllPassIffNoneFail | packages/backend/src/utils/verifySeats.ts:17-32 | the failing list is empty if and only if every requested seat passes |
| SeatVerification.VerifySeatsCharacterisation | packages/backend/src/utils/verifySeats.ts:18-31 | a requested seat is reported exactly when it fails, and then as many times as it was requested |
| SeatVerification.SeatIdInjective | packages/backend/src/utils/verifySeats.ts:22-30 | with row labels free of `-`, two seats with the same reported id are the same seat |
| SeatCache.GroupByRowIsRowOf | packages/backend/src/redis/seatCache.ts:9-13 | the grouping loop has a key exactly for each row that occurs, holding that row's seats in input order (the reference filter) |
| SeatCache.GroupStepAt | packages/backend/src/redis/seatCache.ts:10-13 | one iteration (create the array on first sight, then push) keeps the grouping equal to the reference for every key |
| SeatCache.GroupByRowProperties | packages/backend/src/redis/seatCache.ts:9-13 | every group is non-empty and holds only its row's seats; every seat sits in its row's group as often as in the input |
| SeatCache.GroupByRowAppend | packages/backend/src/redis/seatCache.ts:10-13 | grouping a concatenation extends each row's group in order |
| SeatCache.GroupByRowPermutation | packages/backend/src/redis/seatCache.ts:9-14 | concatenating the groups in any order listing each row once is a permutation of the input |
| SeatCache.RowOrder | packages/backend/src/redis/seatCache.ts:10-11 | an enumeration of the object's keys: each occurring row label exactly once, in order of first appearance |
| SeatCache.GroupByRowTotal | packages/backend/src/routes/api/api-seats.ts:24-34 | the groups together hold exactly as many seats as were grouped |
| SeatCache.Invalidate | packages/backend/src/routes/api/api-orders.ts:315-315 | `DEL seats:<date>` removes that key and leaves every other entry unchanged |
| SeatCache.RefreshSeatCache | packages/backend/src/redis/seatCache.ts:7-17 | the entry `seats:<date>` is written with the 300-second TTL and holds, for exactly the rows with a seat on that date, that row's seats of the date in store order; every other key is unchanged |
| SeatCache.RefreshContents | packages/backend/src/redis/seatCache.ts:8-13 | grouping the date's seat list gives a key for exactly the rows present on that date, each holding the store's seats of that date and row |
| SeatsApi.All | packages/backend/src/routes/api/api-seats.ts:19-41 | a failed retrieval answers 500 with its message; otherwise 200 with groups keyed by exactly the occurring rows, each equal to that row's seats in order, totalling all seats |
| OrderRequests.OrderChecks | packages/backend/src/routes/api/api-orders.ts:72-108 | the nine field checks of the handler, in the handler's order |
| OrderRequests.FirstFailure | packages/backend/src/routes/api/api-orders.ts:72-108 | no index exactly when every check passes; otherwise the first failing check |
| OrderRequests.ValidateOrderFields | packages/backend/src/routes/api/api-orders.ts:60-108 | accepted if and only if all nine checks pass; a rejection carries the message of the first failing check; an accepted body has a truthy date, a non-empty seat array and a numeric price |
| OrderRequests.ValidateSeatFormat | packages/backend/src/routes/api/api-orders.ts:110-120 | the seats are accepted exactly when every one has a string row label, a numeric number and type `Standard` or `VIP`, and the parsed seats carry those fields; otherwise the first bad seat decides, and a `null` seat throws |
| Orders.Refs | packages/backend/src/routes/api/api-orders.ts:122-125 | the `{rowLabel, number}` projection keeps length and each seat's row label and number |
| Orders.ValidSeatsLocked | packages/backend/src/utils/verifySeats.ts:26-30 | a seat that passes verification has a lock |
| Orders.ExtendLocksExtends | packages/backend/src/routes/api/api-orders.ts:134-137 | extending locks that all exist puts the 30-minute TTL on each listed seat's lock and leaves everything else alone |
| Orders.Commit | packages/backend/src/routes/api/api-orders.ts:134-163 | the seats' locks are extended before the save; a failed save answers 500 with no order added (locks stay extended); a save appends an unpaid order with the request's fields and answers 201 with its ids |
| Orders.ParseCreateRequest | packages/backend/src/routes/api/api-orders.ts:59-120 | a failed field check answers its 400, a bad seat shape answers 400 `Invalid seat format`, a thrown read or an uncastable date answers 422; an accepted request has a non-empty date and at least one seat |
| Orders.PlaceOrder | packages/backend/src/routes/api/api-orders.ts:122-163 | 409 exactly when some seat fails verification, with the verifier's list and nothing changed; otherwise every seat was available and locked by the requester, the locks are extended, seats and views are unchanged, and the order is appended unpaid exactly when saved |
| Orders.CreateOrder | packages/backend/src/routes/api/api-orders.ts:56-168 | a request rejected by the checks changes nothing and answers the check's status; an accepted one has the outcome of placing the order |
| Orders.CheckOrderId | packages/backend/src/routes/api/api-orders.ts:189-200 | an empty id is missing; an id is well formed exactly when it is 24 hex digits |
| Orders.FindOrder | packages/backend/src/routes/api/api-orders.ts:201-201 | the first order whose id equals the requested id case-insensitively, or none when no order has it |
| Orders.GetOrder | packages/backend/src/routes/api/api-orders.ts:189-211 | 400 exactly for a missing id, 404 for a malformed one; a found order exists and has that id; every well-formed id of an existing order is found |
| Orders.Finalize | packages/backend/src/routes/api/api-orders.ts:286-316 | the report is the re-verification against the polling session; a non-empty report changes nothing; an empty one pays that order only, takes exactly its seats off sale, deletes exactly its locks and rebuilds the date's view |
| Orders.Interrupted | packages/backend/src/routes/api/api-orders.ts:301-316 | when the finalize write at a given point throws, the order is paid unless the first write threw; seats and locks are untouched up to the seat write; locks only ever disappear |
| Orders.SettlePaid | packages/backend/src/routes/api/api-orders.ts:286-397 | 409 with the invalid seats exactly when re-verification fails, and nothing changes; otherwise all its seats had passed; a throwing write answers 500 `Failed to retrieve payment status` and keeps the writes before it; without one the order is finalized, and the answer is 500 exactly when mail is configured without a QR secret or the QR image fails, else 200 `succeeded` |
| Orders.FinalizePassed | packages/backend/src/routes/api/api-orders.ts:287-300 | an empty re-verification report means every seat of the order was available and locked by the requester |
| Orders.OrderStatus | packages/backend/src/routes/api/api-orders.ts:239-398 | the id guard answers 400/404; an order without a checkout session answers 400; the provider's missing session, intent or intent details answer their 404s and its failure 500; a payment that is not `succeeded`, or an order already paid, answers that status; all of these change nothing; a succeeded payment for an unpaid order answers as settling it |
| Orders.PollOrder | packages/backend/src/routes/api/api-orders.ts:260-397 | for a found order: no checkout session answers 400; the provider's missing session, intent or intent details answer their 404s and its failure 500; a status other than `succeeded`, or an order already paid, answers that status; none of these changes anything; a succeeded payment for an unpaid order is settled |
| Orders.OrderStatusAtomic | packages/backend/src/routes/api/api-orders.ts:286-397 | the handler's answer, with the finalize writes all-or-nothing: when one throws the state is unchanged, otherwise it is the handler's |
| Invariants.InitInv | packages/backend/src/routes/api/api-orders.ts:139-149 | a backend whose orders are all unpaid satisfies the no-double-sale invariant |
| Invariants.AppendUnpaidKeepsInv | packages/backend/src/routes/api/api-orders.ts:139-149 | appending unpaid orders without touching seats or existing orders keeps the invariant |
| Invariants.CreateKeepsInv | packages/backend/src/routes/api/api-orders.ts:56-168 | order creation keeps the invariant for every body, session and save result |
| Invariants.PlaceKeepsInv | packages/backend/src/routes/api/api-orders.ts:122-163 | placing a parsed order keeps the invariant |
| Invariants.FinalizeNarrows | packages/backend/src/routes/api/api-orders.ts:304-310 | finalization only takes seats off sale |
| Invariants.FinalizeSells | packages/backend/src/routes/api/api-orders.ts:304-310 | after finalization every seat of the order that has a document is sold |
| Invariants.FinalizeOrders | packages/backend/src/routes/api/api-orders.ts:301-303 | finalization pays that order, keeps its date and seats, and leaves every other order unchanged |
| Invariants.FinalizeKeepsSold | packages/backend/src/routes/api/api-orders.ts:286-316 | finalizing an order whose seats all verify keeps every paid order's seats sold |
| Invariants.FinalizeKeepsSingleSale | packages/backend/src/routes/api/api-orders.ts:286-300 | finalizing an order whose seats all verify creates no pair of paid orders sharing a seat |
| Invariants.PollKeepsInv | packages/backend/src/routes/api/api-orders.ts:239-398 | the all-or-nothing poll keeps the invariant whatever the provider answers and whichever write throws; the poll as written keeps it when no finalize write throws |
| Invariants.StepKeepsInv | packages/backend/src/routes/api/api-orders.ts:286-316 | a creation, a poll, a lock acquisition or a lock lapse keeps the invariant |
| Invariants.RunKeepsInv | packages/backend/src/routes/api/api-orders.ts:286-316 | any sequence of steps keeps the invariant |
| Invariants.NoSeatSoldTwice | packages/backend/src/routes/api/api-orders.ts:286-316 | from a state with no paid order, no sequence of steps ever lets two paid orders hold the same seat of a date |
| Invariants.SoldSeatNeverVerifies | packages/backend/src/utils/verifySeats.ts:22-25 | a seat held by a paid order fails verification for every session, so finalizing another order holding it reports it |
| Invariants.FindOrderIgnoresPaid | packages/backend/src/routes/api/api-orders.ts:301-303 | marking an order paid does not change which order any id finds |
| Invariants.PollSettles | packages/backend/src/routes/api/api-orders.ts:286-286 | after a poll either nothing changed or the polled order no longer reaches finalization |
| Invariants.PollIdempotent | packages/backend/src/routes/api/api-orders.ts:286-316 | repeating a poll changes nothing, and after a poll that finalized, a poll by any session with any mail setting changes nothing |
| Invariants.InterruptedFinalizeSellsTwice | packages/backend/src/routes/api/api-orders.ts:301-316 | as written, when A's poll answers 500 because the seat write threw after A was marked paid, the seats stay on sale; once the lock passes to B's session, B's poll pays B too, and two paid orders share a seat |
| Invariants.PayingASharedSeatSellsTwice | packages/backend/src/routes/api/api-orders.ts:286-303 | a poll that pays an order sharing a seat with a paid order leaves two paid orders on that seat |
| Invariants.TwoBuyersQualify | packages/backend/src/routes/api/api-orders.ts:286-300 | two unpaid orders for seat A1 with A1 on sale and locked by A's session start with no paid order and meet every condition of the double sale |
| Invariants.LockAndViewKeysDisjoint | packages/backend/src/routes/api/api-orders.ts:312-315 | a lock key never equals a seat-view key |
| QrCodes.SplitUnique | packages/backend/src/routes/api/api-qrcode.ts:20-20 | a seat number splits into letters and digits in at most one place |
| QrCodes.ParseSeatNumber | packages/backend/src/routes/api/api-qrcode.ts:20-26 | a seat is parsed exactly when the text is a letter run followed by a digit run, and it is the letters with the decimal value of the digits |
| QrCodes.ParseSeatNumberRoundTrip | packages/backend/src/routes/api/api-qrcode.ts:20-26 | parsing the printed form of a seat with a letter row label gives the seat back |
| QrCodes.SeatNumberOfParse | packages/backend/src/routes/api/api-qrcode.ts:20-26 | a seat number without leading zeros is the printed form of the seat it parses to |
| QrCodes.GenerateQrCode | packages/backend/src/routes/api/api-qrcode.ts:8-51 | 400 for a missing or non-string seat number or date, and 400 `Invalid seat number format` exactly when the seat number does not parse; 409 exactly when the parsed seat is listed by an order of that date; for a free seat, 500 exactly without a secret and a code exactly with one; a code carries `<seatNumber>:<date>.<hex HMAC of that text>` |
| QrCodes.ReadPayloadRoundTrip | packages/backend/src/routes/api/api-qrcode.ts:44-48 | splitting a payload at its last `.` and first `:` recovers exactly the seat number, date and signature that built it |
| QrCodes.FreeSeatGetsCode | packages/backend/src/routes/api/api-qrcode.ts:28-51 | a seat no order of that date lists, asked for under its printed number with a secret, gets a code, and reading the code back gives that seat number, the date and the signature over both |
| QrCodes.BookedSeatGetsNoCode | packages/backend/src/routes/api/api-qrcode.ts:28-36 | once an order lists a seat on a (non-empty) date, the QR request for that seat and date answers 409 |
| SeatSelection.FindLegacySeat | packages/backend/src/routes/api/seat-selection-api.ts:19-19 | the first seat whose number is one of the queried values, or none exactly when no seat has any of them |
| SeatSelection.Select | packages/backend/src/routes/api/seat-selection-api.ts:8-46 | a missing id or seat number answers 400; an array seat number matches any of its values and one that does not cast answers 500; an unknown seat 404; a reserved seat 409; a free seat is reserved by the requester exactly when the user id casts, with the message printing the seat number as the request gave it; nothing changes except on success |
| SeatSelection.SingletonSeatNumber | packages/backend/src/routes/api/seat-selection-api.ts:19-41 | a one-element array holding a non-empty seat number is answered exactly as that string (`[""]` and `""` differ, since only `""` is falsy) |
| SeatSelection.ArraySeatNumberReserves | packages/backend/src/routes/api/seat-selection-api.ts:19-41 | `seatNumber: ["1A", "2B"]` reserves seat 1A and answers `Seat 1A,2B reserved successfully by User u.` |
| Json.QueryTexts | packages/backend/src/routes/api/seat-selection-api.ts:19-19 | a scalar is queried as its text and `null` as no value; an array is queried as its elements' texts, and fails exactly when an element is an object or an array; an object fails |
| SeatSelection.SelectKeepsReservations | packages/backend/src/routes/api/seat-selection-api.ts:26-36 | a request never changes a reserved seat, never renames a seat, and changes at most the addressed seat |
| SeatSelection.ReservationsArePermanent | packages/backend/src/routes/api/seat-selection-api.ts:26-36 | under any sequence of requests a reservation and its holder never change |
| SeatSelection.SecondSelectConflicts | packages/backend/src/routes/api/seat-selection-api.ts:26-29 | after a successful reservation, any request for the same seat number answers 409 |
| LegacyOrders.LengthOf | packages/backend/src/routes/api/order-routes.ts:48-48 | `.length` of an array or string is its length, and numbers, booleans and `null` have none |
| LegacyOrders.NormalizeSeat | packages/backend/src/routes/api/order-routes.ts:59-67 | the normal form is again a seat code with the same number, the letter upper-cased, and no leading zero |
| LegacyOrders.NormalizeSeatIdempotent | packages/backend/src/routes/api/order-routes.ts:66-67 | normalising twice is normalising once |
| LegacyOrders.NormalizeSeatSame | packages/backend/src/routes/api/order-routes.ts:66-67 | two codes normalise alike if and only if they have the same number and the same letter up to case |
| LegacyOrders.NormalFormFixed | packages/backend/src/routes/api/order-routes.ts:66-67 | a code without a leading zero and with an upper-case letter is its own normal form |
| LegacyOrders.NormalizeSeats | packages/backend/src/routes/api/order-routes.ts:54-68 | all seats are normalised exactly when every one is a well-formed string code; otherwise the first bad seat decides, crashing when it is not a string |
| LegacyOrders.ScanSeatsValue | packages/backend/src/routes/api/order-routes.ts:56-68 | accepted exactly for an array of well-formed codes, giving each code's normal form |
| LegacyOrders.ValidateLegacy | packages/backend/src/routes/api/order-routes.ts:28-68 | each presence check answers its message in order, a count mismatch answers its message, and a body is accepted if and only if it has a truthy user id, a positive count equal to the length of an array of well-formed codes |
| LegacyOrders.ValidateLegacyAccepts | packages/backend/src/routes/api/order-routes.ts:28-68 | a body with a truthy user id, a matching count and an array of well-formed seats is accepted with the normalised seats |
| LegacyOrders.CreateLegacyOrderAsWritten | packages/backend/src/routes/api/order-routes.ts:70-93 | validation failures answer as before; every valid request answers 500, because the document never satisfies the schema |
| LegacyOrders.LegacyOrderNeverSaved | packages/backend/src/models/order.ts:10-15 | as written no request ever creates an order, and a valid one always answers 500 |
| LegacyOrders.SuccessSeatsNormalized | packages/backend/src/routes/api/__test__/api-order.test.ts:25-29 | the seats `21B`, `21C`, `24B`, `30X` are already in normal form |
| LegacyOrders.SuccessBodyAccepted | packages/backend/src/routes/api/__test__/api-order.test.ts:21-36 | the test's success body passes every check, with user `45`, four tickets and those four seats |
| LegacyOrders.LegacySuccessCaseFails | packages/backend/src/routes/api/__test__/api-order.test.ts:21-36 | as written, the test's success body answers 500 instead of 200 |
| LegacyOrders.CreateLegacyOrder | packages/backend/src/routes/api/order-routes.ts:70-93 | an order is created exactly when validation passes and the save succeeds; it is appended unpaid with the user id, count and normalised seats; otherwise nothing is stored |
| LegacyOrders.LegacySuccessCase | packages/backend/src/routes/api/__test__/api-order.test.ts:94-116 | with the corrected save, the success body creates an unpaid order holding user `45`, four tickets and the four seats |
| SeatSelectionSlice.InitialState | packages/frontend/src/redux/slices/seatSelectionSlice.ts:12-23 | nothing loaded, not initialized, the three show dates offered and the first (`2025-08-14`) chosen |
| SeatSelectionSlice.InitializeSeatData | packages/frontend/src/redux/slices/seatSelectionSlice.ts:29-32 | the map is replaced by the payload and marked initialized; date and dates unchanged |
| SeatSelectionSlice.ToggleRow | packages/frontend/src/redux/slices/seatSelectionSlice.ts:35-37 | same length; seats with the number have `selected` flipped and nothing else changed; other seats unchanged |
| SeatSelectionSlice.ToggleSeatSelection | packages/frontend/src/redux/slices/seatSelectionSlice.ts:33-38 | fails exactly for a row the map lacks; otherwise only that row changes, and in it exactly the seats with the number flip `selected` |
| SeatSelectionSlice.ToggleInvolution | packages/frontend/src/redux/slices/seatSelectionSlice.ts:33-38 | toggling the same seat twice restores the state |
| SeatSelectionSlice.MarkRowUnavailable | packages/frontend/src/redux/slices/seatSelectionSlice.ts:44-48 | seats with the number become unavailable and unselected, nothing else about them changes, other seats unchanged |
| SeatSelectionSlice.SetSeatUnavailable | packages/frontend/src/redux/slices/seatSelectionSlice.ts:39-49 | fails exactly for a missing row; otherwise only that row changes, and in it exactly the seats with the number become unavailable and unselected |
| SeatSelectionSlice.SetSeatUnavailableIdempotent | packages/frontend/src/redux/slices/seatSelectionSlice.ts:39-49 | marking a seat unavailable twice equals once |
| SeatSelectionSlice.SetSelectedDate | packages/frontend/src/redux/slices/seatSelectionSlice.ts:50-52 | only the chosen date changes |
| SeatingArrangement.ArrangementWellFormed | packages/frontend/src/components/SeatPlanning/SeatingArrangement.ts:19-89 | each wing lists rows A to U in order, each with at least one seat numbered from 1 |
| SeatingArrangement.WingsDoNotOverlap | packages/frontend/src/components/SeatPlanning/SeatingArrangement.ts:19-89 | in every row the right wing's numbers lie below the middle's and the middle's below the left wing's |
| SeatingArrangement.WingLabels | packages/frontend/src/components/SeatPlanning/SeatingArrangement.ts:19-89 | a well-formed wing carries each label once, and exactly the labels A to U |
| SeatingArrangement.MakeSeat | packages/frontend/src/components/SeatPlanning/SeatingArrangement.ts:99-105 | a generated seat has its number and row, is unselected, and takes availability and type from the draws |
| SeatingArrangement.SeatRange | packages/frontend/src/components/SeatPlanning/SeatingArrangement.ts:95-106 | numbers `from` to `to` in increasing order, one seat each, none when `from > to` |
| SeatingArrangement.PushRow | packages/frontend/src/components/SeatPlanning/SeatingArrangement.ts:95-106 | the seat loop appends the row's seats to its label's list, creating it on the first seat, and leaves the map alone for an empty row |
| SeatingArrangement.PushWing | packages/frontend/src/components/SeatPlanning/SeatingArrangement.ts:94-107 | the row loop performs every row's pass in wing order |
| SeatingArrangement.AddRowsGet | packages/frontend/src/components/SeatPlanning/SeatingArrangement.ts:94-107 | after the rows' passes a label holds what it held before followed by the seats of its rows, in row order |
| SeatingArrangement.AddRowsKeys | packages/frontend/src/components/SeatPlanning/SeatingArrangement.ts:96-98 | with non-empty rows, the labels present afterwards are those present before plus the rows' labels |
| SeatingArrangement.LabelSeatsOf | packages/frontend/src/components/SeatPlanning/SeatingArrangement.ts:94-107 | with distinct labels, a label's seats are those of its single row |
| SeatingArrangement.ThreeWings | packages/frontend/src/components/SeatPlanning/SeatingArrangement.ts:93-108 | over three well-formed wings the map has exactly the labels A to U, each holding the left wing's seats, then the middle's, then the right's |
| SeatingArrangement.GenerateSeatData | packages/frontend/src/components/SeatPlanning/SeatingArrangement.ts:91-111 | the generated map has exactly the labels A to U, and each row lists its left, middle and right wing seats in that order |
| SeatingArrangement.GeneratedSeatsWellFormed | packages/frontend/src/components/SeatPlanning/SeatingArrangement.ts:91-111 | every generated seat sits under its own row label, none is selected, and no number repeats in a row |
| SeatingArrangement.RowNumbersDistinct | packages/frontend/src/components/SeatPlanning/SeatingArrangement.ts:94-106 | a generated row's seats all carry its label, are unselected and have distinct numbers |
| SeatingArrangement.GeneratedToggleFlipsOneSeat | packages/frontend/src/redux/slices/seatSelectionSlice.ts:33-38 | on a generated map a toggle changes at most one seat of the row |

## Left out

- Numbers are integers throughout. JavaScript fractions, `NaN` and the precision limit of `Number.parseInt` are not modelled.
- Query values follow the document store's cast. A scalar is queried as its text. An array is queried as any of its elements (`$in`); `/select` models this. An object, or an array holding one, fails the cast and the handler's `catch` answers for it. Operator objects such as `{$ne: …}` would change a query's meaning instead; the model treats them as failed casts.
- Orders.ParseCreateRequest: an array `selectedDate` is answered 422 before verification. As written, verification queries the seats with `$in` over the array while the lock keys join its elements with commas, so the request answers 409 unless such a lock exists; past that, the locks are extended and the save's cast fails with 422. The model skips that verification and lock extension.
- I/O, the network and outside services are parameters of the model:
  - the Stripe calls;
  - the Brevo e-mail request and its failure;
  - the image encoding of QR codes;
  - the HMAC, which is the parameter `mac`;
  - environment variables;
  - `Math.random`, whose draws are the `available`/`vip` parameters of the generator.
- Database failures are modelled only where a parameter names them: the `saved` result of the order saves and the `retrieved` seat list of `GET /api/seats`. Two more failures are modelled as a `Fault` parameter of the status poll: a finalize write that throws, which the handler's `catch` answers with 500 while keeping the earlier writes, and a throw from the QR image. Every other database or Redis operation is taken to succeed; the lines below name the paths this leaves out.
- Orders.CreateOrder: a seat read inside `verifySeats` or an `EXPIRE` that throws (api-orders.ts lines 122-137) lands in the handler's 422 `catch`, possibly after some locks were already extended. Neither is modelled, and neither is a save that throws; only the cases listed under `Orders.ParseCreateRequest` reach that `catch`.
- Orders.GetOrder: `retrieveOrderById` is awaited outside any `try` (api-orders.ts line 201), so a throwing read escapes the handler without an answer of its own. The model has no such path.
- Orders.OrderStatus: the order lookup is awaited outside the `try` (api-orders.ts line 253), so a throwing read escapes the handler; this path is not modelled. Neither is a read failure inside the re-verification of the poll. A lock deletion that throws is modelled at a seat boundary (`DropLocks(k)`: the first `k` deletions happened). The e-mail request's own failure is caught by the handler and changes nothing, so it is not a fault.
- Invariants.PollKeepsInv: the poll as written is covered only when no finalize write throws. With a throwing write it can break the invariant (see Findings). The invariant is proved for the all-or-nothing poll `Orders.OrderStatusAtomic`, which `Invariants.Step` uses.
- The session cookie is not modelled. Storing `orderId` in it (api-orders.ts lines 156-158) has no observable effect on the seat state.
- `GET /` (list all orders), `PUT /:id` and `DELETE /:id` are not modelled. They pass the body or the id straight to the order data-access functions, and those functions are not part of this model.
- Nothing in the repository creates a seat lock. Locks are acquired and lapse only through the environment steps `Locks.Acquire` and `Locks.Lapse` of `Invariants.Step`.
- Lock and seat-view TTLs are recorded but do not count down. Expiry is the `Lapse` step for locks; for views it is not modelled.
- Concurrency is not modelled, and each request is one atomic step. The read-then-save race of `/select` and the gap between verification and finalization are therefore out of scope.
- SeatsApi.All: the grouping builds a plain object, so a row label that names an `Object.prototype` member (`constructor`, `toString`, `__proto__`, …) finds an inherited value with no `push`; the loop throws and the route answers 500 "Unable to retrieve seats from database". The model groups such a label like any other and answers 200. The seeded rows are A to U, so no such label occurs there.
- SeatCache.RefreshSeatCache: the same plain-object grouping throws for a row label naming an `Object.prototype` member, so the entry is not written and the call rejects (inside the status poll, the `RebuildView` fault). The model writes the entry for every label.
- `SeatsApi.All`: the data-access call it imports is not part of this model. Its result is a parameter, holding the seat list or a failure.
- SeatSelection.Select: a throw from `Seat.findOne` or `seat.save()` (seat-selection-api.ts lines 19 and 36) answers 500 `Server error.` with nothing saved. The model has no input for it, so a found free seat with a castable user id is always reserved, where the source can still answer 500.
- SeatSelection.Select: the document store's cast is not part of this model. `Json.AsText` and `Json.QueryTexts` approximate it: a user id that does not cast to a string makes the save fail with 500, and so does a seat number that does not cast for the query.
- `QrCodes.GenerateQrCode`: the check against existing orders reads every order, paid or not. The model keeps this as written and does not strengthen it to paid orders only.
- `SeatingArrangement.GenerateSeatData`: the random draws are arbitrary functions of the row and number. The model says nothing about the 80 % / 10 % probabilities.
- Orders.SettlePaid: the e-mail content (seat list, price formatting) and its request are left out. Only the QR image's throw, which the handler answers with 500 after the order was finalized, is modelled.
- QrCodes.GenerateQrCode: a throw from the order query or from the QR image encoder answers 500 `Failed to generate QR code`. Neither is modelled; the image encoding is left out.
- The dated seat schema and the checkout-order schema are rebuilt from how the routes use them. `models/Seat.ts` and `models/order.ts` default-export only the legacy schemas, yet `verifySeats.ts` and `seat-dao.ts` import `Seat` and `api-qrcode.ts` imports `Order` by names those files do not export. `api-seats.ts` imports `retrieveSeatList`, which `seat-dao.ts` does not export. `api-orders.ts` imports `retrieveOrderById`, `updateOrder` and other order data-access functions that `data/order-dao.ts` does not export; `createOrder` is exported there, but with the three-argument signature `(email, numberOfTickets, seats)`, which does not fit the nine-argument call in `POST /`. The model gives all of these the fields and effects the routes rely on.

## Findings

| source | as written | input that shows it | evidently intended | confidence | as-written member | corrected member |
|---|---|---|---|---|---|---|
| packages/backend/src/routes/api/order-routes.ts:71-78 | The route builds the order from `userID`, `numberOfTickets`, `seats` and `paid`. The order schema in `models/order.ts` has no `userID` and requires `email`, which the route never sets. Every save fails validation and answers 500. | `{userID: "45", numberOfTickets: 4, seats: ["21B","21C","24B","30X"]}`, the route's own success test | a saved unpaid order that keeps `userID`, answered 200 with its id, as the route's tests expect | medium, not executed | LegacyOrders.LegacySuccessCaseFails | LegacyOrders.LegacySuccessCase |
| packages/backend/src/routes/api/api-orders.ts:301-397 | The finalize writes run one after another inside one `try`. The order is saved as paid first. If a later write throws (`markSeatsUnavailable`, a lock deletion, the view rebuild), the `catch` answers 500 and the earlier writes stay. | Orders A and B both hold seat A1, which is on sale and locked by A's session (`Invariants.TwoBuyers`). A's payment succeeds; A's poll marks A paid, and `markSeatsUnavailable` throws. A1 stays on sale, its lock lapses and B's session takes it; B's payment succeeds and B's poll pays B. Both orders are paid for A1. | finalization all-or-nothing, so no seat is ever held by two paid orders | medium, not executed | Invariants.InterruptedFinalizeSellsTwice | Orders.OrderStatusAtomic |
