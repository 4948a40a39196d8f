/** `verifySeats(date, seats, sessionId)`: the per-seat check run before an
    order is created and again before it is marked paid. It reads the seat
    store and the locks and returns the ids of the seats that fail. */
module SeatVerification {
  import opened Wrappers
  import opened Seqs
  import Text
  import opened SeatStore
  import opened Locks

  /** The id a failing seat is reported under: `${rowLabel}-${number}`. */
  function SeatId(r: SeatRef): string
  {
    r.rowLabel + "-" + Text.IntToDecimal(r.number)
  }

  /** A seat passes: its document exists for that date, it is available,
      and its lock is owned by exactly `sessionId`. */
  predicate SeatValid(store: Store, locks: LockMap, date: string, r: SeatRef, sessionId: string)
  {
    var doc := FindSeat(store, date, r);
    doc.Some? && doc.value.available && OwnerOf(locks, LockKey(date, r)) == Some(sessionId)
  }

  function Fails(store: Store, locks: LockMap, date: string, sessionId: string): SeatRef -> bool
  {
    r => !SeatValid(store, locks, date, r, sessionId)
  }

  /** The seats of the request that fail, one entry per occurrence, in
      request order. */
  function InvalidSeats(store: Store, locks: LockMap, date: string, seats: seq<SeatRef>, sessionId: string): seq<SeatRef>
  {
    Filter(seats, Fails(store, locks, date, sessionId))
  }

  /** The loop over the requested seats: a missing or unavailable document
      fails the seat; otherwise a lock owner other than `sessionId`
      (including no lock at all) fails it. */
  function CheckSeats(store: Store, locks: LockMap, date: string, seats: seq<SeatRef>, sessionId: string): (invalid: seq<string>)
    ensures invalid == Map(SeatId, InvalidSeats(store, locks, date, seats, sessionId))
  {
    if |seats| == 0 then []
    else
      var rest := CheckSeats(store, locks, date, seats[1..], sessionId);
      InvalidSeatsStep(store, locks, date, seats, sessionId);
      var doc := FindSeat(store, date, seats[0]);
      if doc.None? || !doc.value.available then [SeatId(seats[0])] + rest
      else if OwnerOf(locks, LockKey(date, seats[0])) != Some(sessionId) then [SeatId(seats[0])] + rest
      else rest
  }

  /** One step of the loop, stated on the reported ids. */
  lemma InvalidSeatsStep(store: Store, locks: LockMap, date: string, seats: seq<SeatRef>, sessionId: string)
    requires |seats| > 0
    ensures Map(SeatId, InvalidSeats(store, locks, date, seats, sessionId))
      == (if SeatValid(store, locks, date, seats[0], sessionId) then [] else [SeatId(seats[0])])
         + Map(SeatId, InvalidSeats(store, locks, date, seats[1..], sessionId))
  {
    var restBad := InvalidSeats(store, locks, date, seats[1..], sessionId);
    var fails := Fails(store, locks, date, sessionId);
    var valid := SeatValid(store, locks, date, seats[0], sessionId);
    FilterCons(seats, fails);
    assert fails(seats[0]) == !valid;
    var head := if valid then [] else [seats[0]];
    assert InvalidSeats(store, locks, date, seats, sessionId) == head + restBad;
    MapAppend(SeatId, head, restBad);
    assert Map(SeatId, head) == if valid then [] else [SeatId(seats[0])];
  }

  /** `verifySeats`: with no date, or no seats, every requested seat is
      reported; otherwise exactly the failing seats are. */
  function VerifySeats(store: Store, locks: LockMap, date: string, seats: seq<SeatRef>, sessionId: string): (invalid: seq<string>)
    ensures date == "" ==> invalid == Map(SeatId, seats)
    ensures |seats| == 0 ==> invalid == []
    ensures date != "" ==> invalid == Map(SeatId, InvalidSeats(store, locks, date, seats, sessionId))
    ensures invalid == [] <==>
      |seats| == 0 || (date != "" && forall i :: 0 <= i < |seats| ==> SeatValid(store, locks, date, seats[i], sessionId))
  {
    if date == "" || |seats| == 0 then Map(SeatId, seats)
    else
      var invalid := CheckSeats(store, locks, date, seats, sessionId);
      assert invalid == [] <==> InvalidSeats(store, locks, date, seats, sessionId) == [];
      AllPassIffNoneFail(store, locks, date, seats, sessionId);
      invalid
  }

  lemma AllPassIffNoneFail(store: Store, locks: LockMap, date: string, seats: seq<SeatRef>, sessionId: string)
    ensures InvalidSeats(store, locks, date, seats, sessionId) == [] <==>
      forall i :: 0 <= i < |seats| ==> SeatValid(store, locks, date, seats[i], sessionId)
  {
    var bad := InvalidSeats(store, locks, date, seats, sessionId);
    if bad == [] {
      forall i | 0 <= i < |seats|
        ensures SeatValid(store, locks, date, seats[i], sessionId)
      {
        assert multiset(seats)[seats[i]] > 0;
      }
    } else {
      assert bad[0] in multiset(bad);
      assert bad[0] in seats;
    }
  }

  /** A requested seat is reported (under its ref) exactly when it fails,
      and as many times as it was requested. */
  lemma VerifySeatsCharacterisation(store: Store, locks: LockMap, date: string, seats: seq<SeatRef>, sessionId: string, r: SeatRef)
    requires date != ""
    requires r in seats
    ensures r in InvalidSeats(store, locks, date, seats, sessionId) <==> !SeatValid(store, locks, date, r, sessionId)
    ensures multiset(InvalidSeats(store, locks, date, seats, sessionId))[r]
      == if SeatValid(store, locks, date, r, sessionId) then 0 else multiset(seats)[r]
  {
    assert multiset(seats)[r] > 0;
  }

  /** With row labels free of `-`, distinct seats have distinct ids, so the
      reported ids identify the failing seats. */
  lemma SeatIdInjective(a: SeatRef, b: SeatRef)
    requires '-' !in a.rowLabel && '-' !in b.rowLabel
    requires SeatId(a) == SeatId(b)
    ensures a == b
  {
    var ia, ib := SeatId(a), SeatId(b);
    SeatIdShape(a);
    SeatIdShape(b);
    if |a.rowLabel| < |b.rowLabel| {
      assert false;
    } else if |b.rowLabel| < |a.rowLabel| {
      assert false;
    }
    assert a.rowLabel == ia[..|a.rowLabel|] == ib[..|b.rowLabel|] == b.rowLabel;
    assert Text.IntToDecimal(a.number) == ia[|a.rowLabel| + 1..];
    assert Text.IntToDecimal(b.number) == ib[|b.rowLabel| + 1..];
    Text.IntToDecimalInjective(a.number, b.number);
  }

  lemma SeatIdShape(r: SeatRef)
    ensures SeatId(r)[..|r.rowLabel|] == r.rowLabel
    ensures SeatId(r)[|r.rowLabel|] == '-'
    ensures forall i :: 0 <= i < |r.rowLabel| ==> SeatId(r)[i] == r.rowLabel[i]
  {
  }
}
