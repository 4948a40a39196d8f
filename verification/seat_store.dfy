/** The dated seat collection and its data-access functions
    (`retrieveSeatListByDate`, `retrieveUnavailableSeatsByDate`,
    `markSeatsUnavailable`). The collection is a sequence of documents in
    the store's natural order; a seat is addressed by
    `(date, rowLabel, number)`. */
module SeatStore {
  import opened Wrappers
  import opened Seqs

  datatype SeatType = Standard | VIP

  /** A seat document for one performance date. */
  datatype Seat = Seat(
    date: string,
    rowLabel: string,
    number: int,
    available: bool,
    selected: bool,
    seatType: SeatType)

  /** A seat as requests and orders name it: `{ rowLabel, number }`. */
  datatype SeatRef = SeatRef(rowLabel: string, number: int)

  type Store = seq<Seat>

  /** `s` is the document of seat `r` on `date`. */
  predicate IsSeat(s: Seat, date: string, r: SeatRef)
  {
    s.date == date && s.rowLabel == r.rowLabel && s.number == r.number
  }

  /** The document the store returns first for the key `(date, r)`. */
  function FindSeat(store: Store, date: string, r: SeatRef): (found: Option<Seat>)
    ensures found.None? <==> forall i :: 0 <= i < |store| ==> !IsSeat(store[i], date, r)
    ensures found.Some? ==>
      exists i :: 0 <= i < |store| && store[i] == found.value && IsSeat(store[i], date, r)
        && forall j :: 0 <= j < i ==> !IsSeat(store[j], date, r)
  {
    if |store| == 0 then None
    else if IsSeat(store[0], date, r) then Some(store[0])
    else
      var found := FindSeat(store[1..], date, r);
      assert forall i :: 1 <= i < |store| ==> store[i] == store[1..][i - 1];
      found
  }

  function OnDate(date: string): Seat -> bool
  {
    (s: Seat) => s.date == date
  }

  /** `retrieveSeatListByDate`: the seats of one date, in store order. */
  function RetrieveSeatListByDate(store: Store, date: string): (r: seq<Seat>)
    ensures forall i :: 0 <= i < |r| ==> r[i].date == date
    ensures forall s :: multiset(r)[s] == if s.date == date then multiset(store)[s] else 0
  {
    Filter(store, OnDate(date))
  }

  /** `retrieveUnavailableSeatsByDate`: the seats of one date that are no
      longer available, in store order. */
  function RetrieveUnavailableSeatsByDate(store: Store, date: string): (r: seq<Seat>)
    ensures forall i :: 0 <= i < |r| ==> r[i].date == date && !r[i].available
    ensures forall s :: (multiset(r)[s]
      == if s.date == date && !s.available then multiset(store)[s] else 0)
  {
    Filter(store, (s: Seat) => s.date == date && !s.available)
  }

  /** `s` is selected by the update filter of `markSeatsUnavailable`: one
      disjunct `{date, rowLabel, number}` per listed seat. */
  predicate Listed(s: Seat, date: string, seats: seq<SeatRef>)
  {
    s.date == date && SeatRef(s.rowLabel, s.number) in seats
  }

  /** The seat made permanently unavailable: only the two flags change. */
  function Finalized(s: Seat): Seat
  {
    s.(available := false, selected := false)
  }

  /** `markSeatsUnavailable(date, seats)`: one multi-document update that
      clears `available` and `selected` on every listed seat of that date. */
  function MarkSeatsUnavailable(store: Store, date: string, seats: seq<SeatRef>): (r: Store)
    ensures |r| == |store|
    ensures forall i :: 0 <= i < |store| && Listed(store[i], date, seats) ==>
      !r[i].available && !r[i].selected
      && r[i].date == store[i].date && r[i].rowLabel == store[i].rowLabel
      && r[i].number == store[i].number && r[i].seatType == store[i].seatType
    ensures forall i :: 0 <= i < |store| && !Listed(store[i], date, seats) ==> r[i] == store[i]
    ensures |seats| == 0 ==> r == store
  {
    if |seats| == 0 then store
    else
      seq(|store|, i requires 0 <= i < |store| =>
        if Listed(store[i], date, seats) then Finalized(store[i]) else store[i])
  }

  /** Marking the same seats twice is the same as marking them once. */
  lemma MarkSeatsUnavailableIdempotent(store: Store, date: string, seats: seq<SeatRef>)
    ensures MarkSeatsUnavailable(MarkSeatsUnavailable(store, date, seats), date, seats)
         == MarkSeatsUnavailable(store, date, seats)
  {
    var once := MarkSeatsUnavailable(store, date, seats);
    var twice := MarkSeatsUnavailable(once, date, seats);
    forall i | 0 <= i < |store|
      ensures twice[i] == once[i]
    {
      assert Listed(once[i], date, seats) <==> Listed(store[i], date, seats);
    }
  }

  /** `after` is `before` with some seats taken off sale: the same
      documents in the same order, and none became available. */
  predicate Narrowed(before: Store, after: Store)
  {
    && |after| == |before|
    && (forall i :: 0 <= i < |before| ==>
          && after[i].date == before[i].date
          && after[i].rowLabel == before[i].rowLabel
          && after[i].number == before[i].number
          && (after[i].available ==> before[i].available))
  }

  /** A seat that exists and is no longer available: sold. */
  predicate Sold(store: Store, date: string, r: SeatRef)
  {
    var doc := FindSeat(store, date, r);
    doc.Some? && !doc.value.available
  }

  /** Narrowing keeps every seat's document and can only take a seat off
      sale, never put it back. */
  lemma {:induction false} FindSeatNarrowed(before: Store, after: Store, date: string, r: SeatRef)
    requires Narrowed(before, after)
    ensures FindSeat(after, date, r).Some? <==> FindSeat(before, date, r).Some?
    ensures FindSeat(after, date, r).Some? && FindSeat(after, date, r).value.available
            ==> FindSeat(before, date, r).value.available
    ensures Sold(before, date, r) ==> Sold(after, date, r)
  {
    if |before| == 0 {
    } else if IsSeat(before[0], date, r) {
      assert IsSeat(after[0], date, r);
    } else {
      assert !IsSeat(after[0], date, r);
      assert Narrowed(before[1..], after[1..]) by {
        forall i | 0 <= i < |before| - 1
          ensures after[1..][i].date == before[1..][i].date
        {
          assert after[1..][i] == after[i + 1] && before[1..][i] == before[i + 1];
        }
      }
      FindSeatNarrowed(before[1..], after[1..], date, r);
    }
  }

  /** Marking seats unavailable narrows the store, and every listed seat
      that has a document is sold afterwards. */
  lemma MarkSeatsUnavailableSells(store: Store, date: string, seats: seq<SeatRef>, r: SeatRef)
    ensures Narrowed(store, MarkSeatsUnavailable(store, date, seats))
    ensures r in seats && FindSeat(store, date, r).Some? ==> Sold(MarkSeatsUnavailable(store, date, seats), date, r)
  {
    var after := MarkSeatsUnavailable(store, date, seats);
    if r in seats && FindSeat(store, date, r).Some? {
      FindSeatNarrowed(store, after, date, r);
      var found := FindSeat(after, date, r);
      var i :| 0 <= i < |after| && after[i] == found.value && IsSeat(after[i], date, r);
      assert Listed(store[i], date, seats);
    }
  }
}
