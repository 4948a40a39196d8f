/** Seat locks ("holds") as they live in the key-value cache: a string key
    `seatlock:<date>:<rowLabel>-<number>` whose value is the owning session
    id and which carries a time-to-live. Creating a lock happens outside
    the handlers modelled here; `Acquire` and `Lapse` describe what the
    cache lets happen between two requests. */
module Locks {
  import opened Wrappers
  import Text
  import opened SeatStore

  /** A live lock: its owner session id and the TTL last recorded for it. */
  datatype Lock = Lock(owner: string, ttl: int)

  type LockMap = map<string, Lock>

  /** The lock key of seat `r` on `date`. */
  function LockKey(date: string, r: SeatRef): string
  {
    "seatlock:" + date + ":" + r.rowLabel + "-" + Text.IntToDecimal(r.number)
  }

  /** The lock keys of a list of seats on one date. */
  function LockKeys(date: string, seats: seq<SeatRef>): set<string>
  {
    set i | 0 <= i < |seats| :: LockKey(date, seats[i])
  }

  /** `GET key`: the owner of a lock, `None` when no lock exists. */
  function OwnerOf(locks: LockMap, key: string): (owner: Option<string>)
    ensures owner.Some? <==> key in locks
    ensures owner.Some? ==> owner.value == locks[key].owner
  {
    if key in locks then Some(locks[key].owner) else None
  }

  /** The TTL an order's seat locks receive when the order is created. */
  const ORDER_LOCK_TTL_SECONDS := 30 * 60

  /** `EXPIRE key ttl`: re-times an existing lock and does nothing to a key
      that does not exist. */
  function Expire(locks: LockMap, key: string, ttl: int): LockMap
  {
    if key in locks then locks[key := locks[key].(ttl := ttl)] else locks
  }

  /** One `EXPIRE` per listed seat, in list order. */
  function ExtendLocks(locks: LockMap, date: string, seats: seq<SeatRef>, ttl: int): (r: LockMap)
    ensures r.Keys == locks.Keys
    ensures forall k :: k in locks ==> r[k].owner == locks[k].owner
    ensures forall k :: k in locks ==>
      r[k].ttl == if k in LockKeys(date, seats) then ttl else locks[k].ttl
  {
    if |seats| == 0 then locks
    else
      var r := ExtendLocks(Expire(locks, LockKey(date, seats[0]), ttl), date, seats[1..], ttl);
      assert LockKeys(date, seats) == {LockKey(date, seats[0])} + LockKeys(date, seats[1..]) by {
        forall k | k in LockKeys(date, seats)
          ensures k in {LockKey(date, seats[0])} + LockKeys(date, seats[1..])
        {
          var i :| 0 <= i < |seats| && k == LockKey(date, seats[i]);
          if i > 0 { assert seats[i] == seats[1..][i - 1]; }
        }
      }
      r
  }

  /** One `DEL` per listed seat: the locks of those seats are gone, every
      other lock is untouched whoever owns it. */
  function DeleteLocks(locks: LockMap, date: string, seats: seq<SeatRef>): (r: LockMap)
    ensures r.Keys == locks.Keys - LockKeys(date, seats)
    ensures forall k :: k in r ==> r[k] == locks[k]
  {
    if |seats| == 0 then locks
    else
      var r := DeleteLocks(locks - {LockKey(date, seats[0])}, date, seats[1..]);
      assert LockKeys(date, seats) == {LockKey(date, seats[0])} + LockKeys(date, seats[1..]) by {
        forall k | k in LockKeys(date, seats)
          ensures k in {LockKey(date, seats[0])} + LockKeys(date, seats[1..])
        {
          var i :| 0 <= i < |seats| && k == LockKey(date, seats[i]);
          if i > 0 { assert seats[i] == seats[1..][i - 1]; }
        }
      }
      r
  }

  /** `SET key owner NX EX ttl`: a lock is created only when none exists;
      an existing lock is never overwritten. */
  function Acquire(locks: LockMap, key: string, owner: string, ttl: int): (r: (LockMap, bool))
    ensures r.1 <==> key !in locks
    ensures r.1 ==> r.0 == locks[key := Lock(owner, ttl)]
    ensures !r.1 ==> r.0 == locks
  {
    if key in locks then (locks, false) else (locks[key := Lock(owner, ttl)], true)
  }

  /** A lock whose TTL ran out disappears. */
  function Lapse(locks: LockMap, key: string): (r: LockMap)
    ensures key !in r
    ensures forall k :: k in r <==> k in locks && k != key
    ensures forall k :: k in r ==> r[k] == locks[k]
  {
    locks - {key}
  }
}
