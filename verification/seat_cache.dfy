/** The per-date seat view: the seats of one date grouped by row label
    (`refreshSeatCache` and the `/all` handler build the same
    `{ [rowLabel]: Seat[] }` object), and the cache entry
    `seats:<date>` that holds it for `SEAT_TTL_SECONDS`. */
module SeatCache {
  import opened Seqs
  import opened SeatStore

  const SEAT_TTL_SECONDS := 60 * 5

  /** A `{ [rowLabel]: Seat[] }` object. */
  type RowGroups = map<string, seq<Seat>>

  predicate HasRow(seats: seq<Seat>, k: string)
  {
    exists i :: 0 <= i < |seats| && seats[i].rowLabel == k
  }

  function InRow(k: string): Seat -> bool
  {
    (s: Seat) => s.rowLabel == k
  }

  /** The reference definition of a group: the seats of row `k`, in input
      order. */
  function RowOf(seats: seq<Seat>, k: string): seq<Seat>
  {
    Filter(seats, InRow(k))
  }

  /** The grouping loop: for each seat in order, create the row's array on
      first sight and push the seat onto it. */
  function GroupByRow(seats: seq<Seat>): RowGroups
  {
    if |seats| == 0 then map[]
    else
      var g := GroupByRow(seats[..|seats| - 1]);
      var s := seats[|seats| - 1];
      var group := if s.rowLabel in g then g[s.rowLabel] else [];
      g[s.rowLabel := group + [s]]
  }

  /** The loop builds exactly the reference groups: a key for every row
      that occurs, holding that row's seats in input order. */
  lemma {:induction false} GroupByRowIsRowOf(seats: seq<Seat>)
    ensures forall k :: k in GroupByRow(seats) <==> HasRow(seats, k)
    ensures forall k :: k in GroupByRow(seats) ==> GroupByRow(seats)[k] == RowOf(seats, k)
  {
    if |seats| > 0 {
      var prefix := seats[..|seats| - 1];
      var s := seats[|seats| - 1];
      GroupByRowIsRowOf(prefix);
      assert seats == prefix + [s];
      forall k
        ensures k in GroupByRow(seats) <==> HasRow(seats, k)
        ensures k in GroupByRow(seats) ==> GroupByRow(seats)[k] == RowOf(seats, k)
      {
        GroupStepAt(prefix, s, k);
      }
    }
  }

  /** One step of the loop, for one key. */
  lemma GroupStepAt(prefix: seq<Seat>, s: Seat, k: string)
    requires k in GroupByRow(prefix) <==> HasRow(prefix, k)
    requires k in GroupByRow(prefix) ==> GroupByRow(prefix)[k] == RowOf(prefix, k)
    ensures k in GroupByRow(prefix + [s]) <==> HasRow(prefix + [s], k)
    ensures k in GroupByRow(prefix + [s]) ==> GroupByRow(prefix + [s])[k] == RowOf(prefix + [s], k)
  {
    GroupSnoc(prefix, s);
    HasRowSnoc(prefix, s, k);
    GroupStepValue(prefix, s, k);
  }

  /** The loop appends the last seat to its row's group. */
  lemma GroupSnoc(prefix: seq<Seat>, s: Seat)
    ensures var g := GroupByRow(prefix);
      GroupByRow(prefix + [s]) == g[s.rowLabel := (if s.rowLabel in g then g[s.rowLabel] else []) + [s]]
  {
    assert (prefix + [s])[..|prefix|] == prefix;
  }

  /** The group of `k` after one step, given the groups before it. */
  lemma GroupStepValue(prefix: seq<Seat>, s: Seat, k: string)
    requires k in GroupByRow(prefix) <==> HasRow(prefix, k)
    requires k in GroupByRow(prefix) ==> GroupByRow(prefix)[k] == RowOf(prefix, k)
    ensures k in GroupByRow(prefix + [s]) ==> GroupByRow(prefix + [s])[k] == RowOf(prefix + [s], k)
  {
    var g := GroupByRow(prefix);
    GroupSnoc(prefix, s);
    RowOfSnoc(prefix, s, k);
    if k == s.rowLabel && k !in g {
      NoRowEmpty(prefix, k);
    }
  }

  lemma RowOfSnoc(prefix: seq<Seat>, s: Seat, k: string)
    ensures RowOf(prefix + [s], k) == RowOf(prefix, k) + (if s.rowLabel == k then [s] else [])
  {
    FilterAppend(prefix, [s], InRow(k));
    assert Filter([s], InRow(k)) == if s.rowLabel == k then [s] else [];
  }

  lemma HasRowSnoc(prefix: seq<Seat>, s: Seat, k: string)
    ensures HasRow(prefix + [s], k) <==> HasRow(prefix, k) || s.rowLabel == k
  {
    var seats := prefix + [s];
    if HasRow(prefix, k) {
      var i :| 0 <= i < |prefix| && prefix[i].rowLabel == k;
      assert seats[i] == prefix[i];
    }
    if s.rowLabel == k {
      assert seats[|prefix|] == s;
    }
    if HasRow(seats, k) {
      var i :| 0 <= i < |seats| && seats[i].rowLabel == k;
      if i < |prefix| { assert prefix[i] == seats[i]; }
    }
  }

  lemma NoRowEmpty(seats: seq<Seat>, k: string)
    requires !HasRow(seats, k)
    ensures RowOf(seats, k) == []
  {
    var r := RowOf(seats, k);
    if r != [] {
      assert false;
    }
  }

  /** What a client reads from the grouped object: every group is
      non-empty, lists only seats of its own row, and lists them in input
      order; every seat is in the group of its row as often as in the
      input. */
  lemma {:induction false} GroupByRowProperties(seats: seq<Seat>)
    ensures var g := GroupByRow(seats);
      forall k :: k in g ==>
        && |g[k]| > 0
        && (forall i :: 0 <= i < |g[k]| ==> g[k][i].rowLabel == k)
    ensures var g := GroupByRow(seats);
      forall s :: s in seats ==> s.rowLabel in g && multiset(g[s.rowLabel])[s] == multiset(seats)[s]
  {
    var g: RowGroups := GroupByRow(seats);
    GroupByRowIsRowOf(seats);
    forall k | k in g
      ensures |g[k]| > 0
      ensures forall i :: 0 <= i < |g[k]| ==> g[k][i].rowLabel == k
    {
      var row := RowOf(seats, k);
      assert g[k] == row;
      var i :| 0 <= i < |seats| && seats[i].rowLabel == k;
      assert seats[i] in multiset(seats);
      assert multiset(row)[seats[i]] == multiset(seats)[seats[i]];
      forall j | 0 <= j < |row| ensures row[j].rowLabel == k {
        assert InRow(k)(row[j]);
      }
    }
    forall s | s in seats
      ensures s.rowLabel in g && multiset(g[s.rowLabel])[s] == multiset(seats)[s]
    {
      var i :| 0 <= i < |seats| && seats[i] == s;
      assert HasRow(seats, s.rowLabel);
      assert g[s.rowLabel] == RowOf(seats, s.rowLabel);
      assert InRow(s.rowLabel)(s);
    }
  }

  lemma GroupAt(seats: seq<Seat>, k: string)
    requires k in GroupByRow(seats)
    ensures GroupByRow(seats)[k] == RowOf(seats, k)
    ensures forall s :: multiset(GroupByRow(seats)[k])[s] == if s.rowLabel == k then multiset(seats)[s] else 0
  {
    GroupByRowIsRowOf(seats);
  }

  /** Grouping one list after another extends each group in order. */
  lemma GroupByRowAppend(a: seq<Seat>, b: seq<Seat>, k: string)
    ensures RowOf(a + b, k) == RowOf(a, k) + RowOf(b, k)
  {
    FilterAppend(a, b, InRow(k));
  }

  /** The groups listed under `keys`, concatenated in the order `keys`
      lists them. */
  function Flatten(g: RowGroups, keys: seq<string>): seq<Seat>
    requires forall i :: 0 <= i < |keys| ==> keys[i] in g
  {
    if |keys| == 0 then [] else g[keys[0]] + Flatten(g, keys[1..])
  }

  predicate Distinct(keys: seq<string>)
  {
    forall i, j :: 0 <= i < j < |keys| ==> keys[i] != keys[j]
  }

  lemma {:induction false} FlattenCounts(seats: seq<Seat>, keys: seq<string>)
    requires Distinct(keys)
    requires forall i :: 0 <= i < |keys| ==> keys[i] in GroupByRow(seats)
    ensures forall s :: (multiset(Flatten(GroupByRow(seats), keys))[s]
      == if s.rowLabel in keys then multiset(seats)[s] else 0)
  {
    var g := GroupByRow(seats);
    if |keys| > 0 {
      GroupAt(seats, keys[0]);
      FlattenCounts(seats, keys[1..]);
      forall s
        ensures multiset(Flatten(g, keys))[s] == if s.rowLabel in keys then multiset(seats)[s] else 0
      {
        assert Flatten(g, keys) == g[keys[0]] + Flatten(g, keys[1..]);
        assert keys[0] !in keys[1..];
        assert s.rowLabel in keys <==> s.rowLabel == keys[0] || s.rowLabel in keys[1..];
      }
    }
  }

  /** Concatenating the groups in any order that lists each row once gives
      back the input up to order: nothing is lost or duplicated. */
  lemma GroupByRowPermutation(seats: seq<Seat>, keys: seq<string>)
    requires Distinct(keys)
    requires forall k :: k in keys <==> k in GroupByRow(seats)
    ensures multiset(Flatten(GroupByRow(seats), keys)) == multiset(seats)
    ensures |Flatten(GroupByRow(seats), keys)| == |seats|
  {
    var g := GroupByRow(seats);
    var flat := Flatten(g, keys);
    FlattenCounts(seats, keys);
    GroupByRowProperties(seats);
    forall s
      ensures multiset(flat)[s] == multiset(seats)[s]
    {
      if s.rowLabel !in keys {
        assert s !in seats;
      }
    }
    assert multiset(flat) == multiset(seats);
    assert |multiset(flat)| == |flat|;
  }

  /** The row labels in order of first appearance. This is the key order
      of the object the loop builds only while no label is an array index
      such as "1"; a JavaScript object lists those keys first, in numeric
      order. The lemmas below use it only as an enumeration of the keys. */
  function RowOrder(seats: seq<Seat>): (keys: seq<string>)
    ensures Distinct(keys)
    ensures forall k :: k in keys <==> HasRow(seats, k)
  {
    if |seats| == 0 then []
    else
      var prefix := seats[..|seats| - 1];
      var s := seats[|seats| - 1];
      var keys := RowOrder(prefix);
      assert seats == prefix + [s];
      assert forall k :: HasRow(seats, k) <==> HasRow(prefix, k) || s.rowLabel == k by {
        forall k
          ensures HasRow(seats, k) <==> HasRow(prefix, k) || s.rowLabel == k
        {
          HasRowSnoc(prefix, s, k);
        }
      }
      if s.rowLabel in keys then keys else keys + [s.rowLabel]
  }

  /** The total number of seats across the groups equals the number of
      seats grouped. */
  lemma GroupByRowTotal(seats: seq<Seat>)
    ensures forall i :: 0 <= i < |RowOrder(seats)| ==> RowOrder(seats)[i] in GroupByRow(seats)
    ensures |Flatten(GroupByRow(seats), RowOrder(seats))| == |seats|
  {
    GroupByRowIsRowOf(seats);
    GroupByRowPermutation(seats, RowOrder(seats));
  }

  function OnDateInRow(date: string, k: string): Seat -> bool
  {
    (s: Seat) => s.date == date && s.rowLabel == k
  }

  /** Some seat of row `k` exists for `date`. */
  predicate RowOnDate(store: Store, date: string, k: string)
  {
    exists i :: 0 <= i < |store| && store[i].date == date && store[i].rowLabel == k
  }

  /** A cached view and the TTL it was written with. */
  datatype CacheEntry = CacheEntry(rows: RowGroups, ttl: int)

  type Cache = map<string, CacheEntry>

  function CacheKey(date: string): string
  {
    "seats:" + date
  }

  /** `DEL seats:<date>`. */
  function Invalidate(cache: Cache, date: string): (c: Cache)
    ensures CacheKey(date) !in c
    ensures forall k :: k in c <==> k in cache && k != CacheKey(date)
    ensures forall k :: k in c ==> c[k] == cache[k]
  {
    cache - {CacheKey(date)}
  }

  /** `refreshSeatCache(date)`: group the date's seats by row and write the
      result under `seats:<date>` with `SEAT_TTL_SECONDS`, replacing any
      previous entry and leaving every other key alone. */
  function RefreshSeatCache(store: Store, cache: Cache, date: string): (c: Cache)
    ensures c.Keys == cache.Keys + {CacheKey(date)}
    ensures forall k :: k in cache && k != CacheKey(date) ==> c[k] == cache[k]
    ensures c[CacheKey(date)].ttl == SEAT_TTL_SECONDS
    ensures var rows := c[CacheKey(date)].rows;
      && (forall k :: k in rows <==> RowOnDate(store, date, k))
      && (forall k :: k in rows ==> |rows[k]| > 0 && rows[k] == Filter(store, OnDateInRow(date, k)))
  {
    var seats := RetrieveSeatListByDate(store, date);
    var rows := GroupByRow(seats);
    RefreshContents(store, date);
    var c := cache[CacheKey(date) := CacheEntry(rows, SEAT_TTL_SECONDS)];
    assert c[CacheKey(date)].rows == rows;
    c
  }

  lemma RefreshContents(store: Store, date: string)
    ensures var rows := GroupByRow(RetrieveSeatListByDate(store, date));
      && (forall k :: k in rows <==> RowOnDate(store, date, k))
      && (forall k :: k in rows ==> |rows[k]| > 0 && rows[k] == Filter(store, OnDateInRow(date, k)))
  {
    var seats := RetrieveSeatListByDate(store, date);
    var rows := GroupByRow(seats);
    GroupByRowIsRowOf(seats);
    GroupByRowProperties(seats);
    forall k
      ensures k in rows <==> RowOnDate(store, date, k)
    {
      if k in rows {
        var j :| 0 <= j < |seats| && seats[j].rowLabel == k;
        assert multiset(seats)[seats[j]] > 0;
        assert seats[j] in store;
      }
      if RowOnDate(store, date, k) {
        var i :| 0 <= i < |store| && store[i].date == date && store[i].rowLabel == k;
        assert multiset(seats)[store[i]] > 0;
        assert store[i] in seats;
      }
    }
    forall k | k in rows
      ensures rows[k] == Filter(store, OnDateInRow(date, k))
    {
      FilterTwice(store, date, k);
    }
  }

  /** Filtering by date and then by row is filtering by both. */
  lemma {:induction false} FilterTwice(store: Store, date: string, k: string)
    ensures Filter(Filter(store, OnDate(date)), InRow(k))
         == Filter(store, OnDateInRow(date, k))
  {
    if |store| > 0 {
      FilterTwice(store[1..], date, k);
      var byDate := Filter(store, OnDate(date));
      if store[0].date == date {
        assert byDate == [store[0]] + Filter(store[1..], (s: Seat) => s.date == date);
        assert byDate[1..] == Filter(store[1..], (s: Seat) => s.date == date);
      }
    }
  }
}
