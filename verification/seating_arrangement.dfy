/** The theatre's floor plan: three wings of rows A to U, each row a range
    of seat numbers, and the generator that turns the plan into a seat map
    for the front end. The generator's random draws (whether a seat is
    free, whether it is a VIP seat) are parameters here. */
module SeatingArrangement {
  import opened SeatStore
  import opened SeatSelectionSlice

  /** One row of one wing: seats `startSeat` to `endSeat`, both included.
      (`label` in the program; the word is reserved in Dafny.) */
  datatype RowArrangement = RowArrangement(rowLabel: string, startSeat: int, endSeat: int)

  type Wing = seq<RowArrangement>

  /** The random draws, one per seat. */
  type Draw = (string, int) -> bool

  const LEFT_WING: Wing := [
    RowArrangement("A", 32, 34), RowArrangement("B", 32, 38), RowArrangement("C", 32, 38),
    RowArrangement("D", 32, 39), RowArrangement("E", 32, 39), RowArrangement("F", 32, 40),
    RowArrangement("G", 32, 39), RowArrangement("H", 32, 41), RowArrangement("I", 32, 40),
    RowArrangement("J", 32, 41), RowArrangement("K", 32, 40), RowArrangement("L", 32, 42),
    RowArrangement("M", 32, 41), RowArrangement("N", 32, 42), RowArrangement("O", 32, 41),
    RowArrangement("P", 32, 43), RowArrangement("Q", 32, 43), RowArrangement("R", 32, 44),
    RowArrangement("S", 32, 44), RowArrangement("T", 32, 44), RowArrangement("U", 30, 43)
  ]

  const MIDDLE: Wing := [
    RowArrangement("A", 17, 25), RowArrangement("B", 17, 27), RowArrangement("C", 17, 27),
    RowArrangement("D", 17, 27), RowArrangement("E", 17, 29), RowArrangement("F", 17, 29),
    RowArrangement("G", 16, 29), RowArrangement("H", 16, 29), RowArrangement("I", 16, 29),
    RowArrangement("J", 16, 30), RowArrangement("K", 15, 30), RowArrangement("L", 15, 30),
    RowArrangement("M", 15, 30), RowArrangement("N", 14, 30), RowArrangement("O", 14, 31),
    RowArrangement("P", 14, 31), RowArrangement("Q", 14, 31), RowArrangement("R", 14, 31),
    RowArrangement("S", 14, 31), RowArrangement("T", 14, 27), RowArrangement("U", 14, 27)
  ]

  const RIGHT_WING: Wing := [
    RowArrangement("A", 10, 12), RowArrangement("B", 7, 12), RowArrangement("C", 6, 12),
    RowArrangement("D", 5, 12), RowArrangement("E", 5, 12), RowArrangement("F", 4, 12),
    RowArrangement("G", 5, 12), RowArrangement("H", 3, 12), RowArrangement("I", 4, 12),
    RowArrangement("J", 3, 12), RowArrangement("K", 4, 12), RowArrangement("L", 2, 12),
    RowArrangement("M", 3, 12), RowArrangement("N", 1, 12), RowArrangement("O", 3, 12),
    RowArrangement("P", 2, 12), RowArrangement("Q", 1, 13), RowArrangement("R", 1, 13),
    RowArrangement("S", 1, 13), RowArrangement("T", 1, 13), RowArrangement("U", 1, 13)
  ]

  /** The wings in the order the generator visits them. */
  const WINGS: seq<Wing> := [LEFT_WING, MIDDLE, RIGHT_WING]

  const ROW_COUNT := 21

  /** The label of the `i`-th row: "A", "B", ... */
  function RowName(i: nat): (r: string)
    requires i < 26
    ensures |r| == 1 && 'A' <= r[0] <= 'Z'
  {
    [(('A' as int) + i) as char]
  }

  lemma RowNameInjective(i: nat, j: nat)
    requires i < 26 && j < 26
    ensures RowName(i) == RowName(j) <==> i == j
  {
    if RowName(i) == RowName(j) {
      assert RowName(i)[0] == RowName(j)[0];
    }
  }

  /** A wing lists the rows A to U in order, each with at least one seat,
      numbered from 1. */
  predicate WellFormedWing(w: Wing)
  {
    && |w| == ROW_COUNT
    && forall i :: 0 <= i < |w| ==> w[i].rowLabel == RowName(i) && 1 <= w[i].startSeat <= w[i].endSeat
  }

  lemma ArrangementWellFormed()
    ensures WellFormedWing(LEFT_WING) && WellFormedWing(MIDDLE) && WellFormedWing(RIGHT_WING)
  {
    LeftWellFormed();
    MiddleWellFormed();
    RightWellFormed();
  }

  /** Rows `lo` to `hi - 1` carry their labels, spelled out character by
      character. */
  predicate LabelledBetween(w: Wing, lo: nat, hi: nat)
  {
    && lo <= hi <= |w| <= 26
    && forall i :: lo <= i < hi ==> |w[i].rowLabel| == 1 && w[i].rowLabel[0] == (('A' as int) + i) as char
  }

  predicate LabelledInOrder(w: Wing)
  {
    LabelledBetween(w, 0, |w|)
  }

  lemma LabelledHalves(w: Wing)
    requires |w| == ROW_COUNT && LabelledBetween(w, 0, 11) && LabelledBetween(w, 11, ROW_COUNT)
    ensures LabelledInOrder(w)
  {
  }

  predicate Bounded(w: Wing)
  {
    forall i :: 0 <= i < |w| ==> 1 <= w[i].startSeat <= w[i].endSeat
  }

  lemma InOrderWellFormed(w: Wing)
    requires |w| == ROW_COUNT && LabelledInOrder(w) && Bounded(w)
    ensures WellFormedWing(w)
  {
    forall i | 0 <= i < |w| ensures w[i].rowLabel == RowName(i) {
      assert w[i].rowLabel[0] == RowName(i)[0];
    }
  }

  lemma LeftWellFormed() ensures WellFormedWing(LEFT_WING)
  {
    LeftLabelled();
    LeftBounded();
    InOrderWellFormed(LEFT_WING);
  }

  lemma LeftLabelled() ensures LabelledInOrder(LEFT_WING)
  {
    LeftLabelledLow();
    LeftLabelledHigh();
    LabelledHalves(LEFT_WING);
  }

  lemma LeftLabelledLow() ensures LabelledBetween(LEFT_WING, 0, 11) { }
  lemma LeftLabelledHigh() ensures LabelledBetween(LEFT_WING, 11, ROW_COUNT) { }
  lemma LeftBounded() ensures Bounded(LEFT_WING) { }

  lemma MiddleWellFormed() ensures WellFormedWing(MIDDLE)
  {
    MiddleLabelled();
    MiddleBounded();
    InOrderWellFormed(MIDDLE);
  }

  lemma MiddleLabelled() ensures LabelledInOrder(MIDDLE)
  {
    MiddleLabelledLow();
    MiddleLabelledHigh();
    LabelledHalves(MIDDLE);
  }

  lemma MiddleLabelledLow() ensures LabelledBetween(MIDDLE, 0, 11) { }
  lemma MiddleLabelledHigh() ensures LabelledBetween(MIDDLE, 11, ROW_COUNT) { }
  lemma MiddleBounded() ensures Bounded(MIDDLE) { }

  lemma RightWellFormed() ensures WellFormedWing(RIGHT_WING)
  {
    RightLabelled();
    RightBounded();
    InOrderWellFormed(RIGHT_WING);
  }

  lemma RightLabelled() ensures LabelledInOrder(RIGHT_WING)
  {
    RightLabelledLow();
    RightLabelledHigh();
    LabelledHalves(RIGHT_WING);
  }

  lemma RightLabelledLow() ensures LabelledBetween(RIGHT_WING, 0, 11) { }
  lemma RightLabelledHigh() ensures LabelledBetween(RIGHT_WING, 11, ROW_COUNT) { }
  lemma RightBounded() ensures Bounded(RIGHT_WING) { }

  /** Within a row the right wing's numbers come before the middle's, and
      the middle's before the left wing's. */
  lemma WingsDoNotOverlap()
    ensures forall i :: 0 <= i < ROW_COUNT ==>
      RIGHT_WING[i].endSeat < MIDDLE[i].startSeat && MIDDLE[i].endSeat < LEFT_WING[i].startSeat
  {
  }

  /** The seat the generator makes for number `n` of a row. */
  function MakeSeat(name: string, n: int, available: Draw, vip: Draw): (s: UiSeat)
    ensures s.number == n && s.rowLabel == name && !s.selected
    ensures s.available == available(name, n)
    ensures s.seatType == (if vip(name, n) then VIP else Standard)
  {
    UiSeat(n, name, available(name, n), false, if vip(name, n) then VIP else Standard)
  }

  /** The seats of a row, numbers `from` to `to` included, in increasing order. */
  function SeatRange(name: string, from: int, to: int, available: Draw, vip: Draw): (r: seq<UiSeat>)
    ensures |r| == if from <= to then to - from + 1 else 0
    ensures forall k :: 0 <= k < |r| ==> r[k] == MakeSeat(name, from + k, available, vip)
  {
    seq(if from <= to then to - from + 1 else 0, k => MakeSeat(name, from + k, available, vip))
  }

  function RowSeats(row: RowArrangement, available: Draw, vip: Draw): seq<UiSeat>
  {
    SeatRange(row.rowLabel, row.startSeat, row.endSeat, available, vip)
  }

  /** The seats already recorded for a label; a missing label reads as none. */
  function Get(data: SeatData, name: string): seq<UiSeat>
  {
    if name in data then data[name] else []
  }

  /** One row's pass: its seats are appended to its label's list, which is
      created on the first seat; a row without seats leaves the map alone. */
  function AddRow(data: SeatData, row: RowArrangement, available: Draw, vip: Draw): SeatData
  {
    if row.startSeat > row.endSeat then data
    else data[row.rowLabel := Get(data, row.rowLabel) + RowSeats(row, available, vip)]
  }

  function AddRows(data: SeatData, rows: Wing, available: Draw, vip: Draw): SeatData
    decreases |rows|
  {
    if |rows| == 0 then data
    else AddRow(AddRows(data, rows[..|rows| - 1], available, vip), rows[|rows| - 1], available, vip)
  }

  function AddWings(data: SeatData, wings: seq<Wing>, available: Draw, vip: Draw): SeatData
    decreases |wings|
  {
    if |wings| == 0 then data
    else AddRows(AddWings(data, wings[..|wings| - 1], available, vip), wings[|wings| - 1], available, vip)
  }

  /** The innermost loop of `generateMockSeatData`: one row, seat by seat. */
  method PushRow(data0: SeatData, row: RowArrangement, available: Draw, vip: Draw) returns (data: SeatData)
    ensures data == AddRow(data0, row, available, vip)
  {
    data := data0;
    var i := row.startSeat;
    while i <= row.endSeat
      invariant row.startSeat <= i <= row.endSeat + 1 || i == row.startSeat
      invariant i == row.startSeat ==> data == data0
      invariant i > row.startSeat ==>
        data == data0[row.rowLabel := Get(data0, row.rowLabel) + SeatRange(row.rowLabel, row.startSeat, i - 1, available, vip)]
      decreases row.endSeat - i
    {
      if row.rowLabel !in data {
        data := data[row.rowLabel := []];
      }
      assert data[row.rowLabel] == Get(data0, row.rowLabel) + SeatRange(row.rowLabel, row.startSeat, i - 1, available, vip);
      var seat := MakeSeat(row.rowLabel, i, available, vip);
      assert Get(data0, row.rowLabel) + SeatRange(row.rowLabel, row.startSeat, i - 1, available, vip) + [seat]
          == Get(data0, row.rowLabel) + SeatRange(row.rowLabel, row.startSeat, i, available, vip);
      data := data[row.rowLabel := data[row.rowLabel] + [seat]];
      i := i + 1;
    }
  }

  /** The middle loop: the rows of one wing in order. */
  method PushWing(data0: SeatData, wing: Wing, available: Draw, vip: Draw) returns (data: SeatData)
    ensures data == AddRows(data0, wing, available, vip)
  {
    data := data0;
    var j := 0;
    while j < |wing|
      invariant 0 <= j <= |wing|
      invariant data == AddRows(data0, wing[..j], available, vip)
    {
      data := PushRow(data, wing[j], available, vip);
      assert wing[..j + 1][..j] == wing[..j];
      j := j + 1;
    }
    assert wing[..|wing|] == wing;
  }

  /** `generateMockSeatData`: the wings in order, starting from an empty map.
      Each label's list holds the left wing's seats, then the middle's, then
      the right wing's. */
  method GenerateSeatData(available: Draw, vip: Draw) returns (data: SeatData)
    ensures data == AddWings(map[], WINGS, available, vip)
    ensures forall k :: k in data <==> IsRowName(k)
    ensures forall i :: 0 <= i < ROW_COUNT ==>
      RowName(i) in data && data[RowName(i)] == RowSeats(LEFT_WING[i], available, vip) + RowSeats(MIDDLE[i], available, vip)
        + RowSeats(RIGHT_WING[i], available, vip)
  {
    data := map[];
    var w := 0;
    while w < |WINGS|
      invariant 0 <= w <= |WINGS|
      invariant data == AddWings(map[], WINGS[..w], available, vip)
    {
      data := PushWing(data, WINGS[w], available, vip);
      assert WINGS[..w + 1][..w] == WINGS[..w];
      w := w + 1;
    }
    assert WINGS[..3] == WINGS;
    ArrangementWellFormed();
    ThreeWings(LEFT_WING, MIDDLE, RIGHT_WING, available, vip);
  }

  /** Some row of `rows` carries the label `k`. */
  predicate HasLabel(rows: Wing, k: string)
  {
    exists i :: 0 <= i < |rows| && rows[i].rowLabel == k
  }

  /** The seats that the rows labelled `k` contribute, in row order. */
  function LabelSeats(rows: Wing, k: string, available: Draw, vip: Draw): seq<UiSeat>
    decreases |rows|
  {
    if |rows| == 0 then []
    else
      var last := rows[|rows| - 1];
      LabelSeats(rows[..|rows| - 1], k, available, vip) + (if last.rowLabel == k then RowSeats(last, available, vip) else [])
  }

  lemma HasLabelSnoc(rows: Wing, k: string)
    requires |rows| > 0
    ensures HasLabel(rows, k) <==> HasLabel(rows[..|rows| - 1], k) || rows[|rows| - 1].rowLabel == k
  {
    var init := rows[..|rows| - 1];
    if HasLabel(rows, k) && rows[|rows| - 1].rowLabel != k {
      var i :| 0 <= i < |rows| && rows[i].rowLabel == k;
      assert init[i] == rows[i];
    }
    if HasLabel(init, k) {
      var i :| 0 <= i < |init| && init[i].rowLabel == k;
      assert rows[i] == init[i];
    }
  }

  /** After the rows' passes, a label holds what it held before followed by
      the seats of its rows. */
  lemma {:induction false} AddRowsGet(data: SeatData, rows: Wing, k: string, available: Draw, vip: Draw)
    ensures Get(AddRows(data, rows, available, vip), k) == Get(data, k) + LabelSeats(rows, k, available, vip)
    decreases |rows|
  {
    if |rows| > 0 {
      var init := rows[..|rows| - 1];
      var last := rows[|rows| - 1];
      AddRowsGet(data, init, k, available, vip);
      var mid := AddRows(data, init, available, vip);
      var extra := if last.rowLabel == k then RowSeats(last, available, vip) else [];
      if last.startSeat > last.endSeat {
        assert RowSeats(last, available, vip) == [];
        assert Get(AddRow(mid, last, available, vip), k) == Get(mid, k) + extra;
      } else {
        assert Get(AddRow(mid, last, available, vip), k) == Get(mid, k) + extra;
      }
      assert Get(data, k) + LabelSeats(init, k, available, vip) + extra
          == Get(data, k) + LabelSeats(rows, k, available, vip);
    }
  }

  /** With rows that all have seats, the labels present afterwards are the
      ones present before and the rows' labels. */
  lemma {:induction false} AddRowsKeys(data: SeatData, rows: Wing, k: string, available: Draw, vip: Draw)
    requires forall i :: 0 <= i < |rows| ==> rows[i].startSeat <= rows[i].endSeat
    ensures k in AddRows(data, rows, available, vip) <==> k in data || HasLabel(rows, k)
    decreases |rows|
  {
    if |rows| > 0 {
      var init := rows[..|rows| - 1];
      AddRowsKeys(data, init, k, available, vip);
      HasLabelSnoc(rows, k);
    }
  }

  lemma {:induction false} LabelSeatsAbsent(rows: Wing, k: string, available: Draw, vip: Draw)
    requires !HasLabel(rows, k)
    ensures LabelSeats(rows, k, available, vip) == []
    decreases |rows|
  {
    if |rows| > 0 {
      HasLabelSnoc(rows, k);
      LabelSeatsAbsent(rows[..|rows| - 1], k, available, vip);
    }
  }

  /** With distinct labels, a label's seats are those of its one row. */
  lemma {:induction false} LabelSeatsOf(rows: Wing, i: nat, available: Draw, vip: Draw)
    requires i < |rows|
    requires forall a, b :: 0 <= a < b < |rows| ==> rows[a].rowLabel != rows[b].rowLabel
    ensures LabelSeats(rows, rows[i].rowLabel, available, vip) == RowSeats(rows[i], available, vip)
    decreases |rows|
  {
    var init := rows[..|rows| - 1];
    var k := rows[i].rowLabel;
    if i == |rows| - 1 {
      forall j | 0 <= j < |init| ensures init[j].rowLabel != k {
        assert init[j] == rows[j];
      }
      LabelSeatsAbsent(init, k, available, vip);
    } else {
      assert init[i] == rows[i];
      LabelSeatsOf(init, i, available, vip);
    }
  }

  /** `k` is one of the labels "A" to "U". */
  predicate IsRowName(k: string)
  {
    exists i :: 0 <= i < ROW_COUNT && RowName(i) == k
  }

  /** A well-formed wing carries each label once, and exactly the labels
      "A" to "U". */
  lemma WingLabels(w: Wing)
    requires WellFormedWing(w)
    ensures forall i, j :: 0 <= i < j < |w| ==> w[i].rowLabel != w[j].rowLabel
    ensures forall k :: HasLabel(w, k) <==> IsRowName(k)
  {
    forall i, j | 0 <= i < j < |w| ensures w[i].rowLabel != w[j].rowLabel {
      RowNameInjective(i, j);
    }
    forall k ensures HasLabel(w, k) <==> IsRowName(k) {
      if IsRowName(k) {
        var i :| 0 <= i < ROW_COUNT && RowName(i) == k;
        assert w[i].rowLabel == k;
      }
    }
  }

  /** Which labels the three passes leave in the map. */
  lemma ThreeWingsKey(left: Wing, middle: Wing, right: Wing, available: Draw, vip: Draw, k: string)
    requires WellFormedWing(left) && WellFormedWing(middle) && WellFormedWing(right)
    ensures var d1 := AddRows(map[], left, available, vip);
      var d2 := AddRows(d1, middle, available, vip);
      k in AddRows(d2, right, available, vip) <==> IsRowName(k)
  {
    WingLabels(left);
    WingLabels(middle);
    WingLabels(right);
    var d1 := AddRows(map[], left, available, vip);
    var d2 := AddRows(d1, middle, available, vip);
    AddRowsKeys(map[], left, k, available, vip);
    AddRowsKeys(d1, middle, k, available, vip);
    AddRowsKeys(d2, right, k, available, vip);
  }

  /** What the three passes leave under row `i`'s label. */
  lemma ThreeWingsRow(left: Wing, middle: Wing, right: Wing, available: Draw, vip: Draw, i: nat)
    requires WellFormedWing(left) && WellFormedWing(middle) && WellFormedWing(right)
    requires i < ROW_COUNT
    ensures var d1 := AddRows(map[], left, available, vip);
      var d2 := AddRows(d1, middle, available, vip);
      Get(AddRows(d2, right, available, vip), RowName(i))
        == RowSeats(left[i], available, vip) + RowSeats(middle[i], available, vip) + RowSeats(right[i], available, vip)
  {
    var k := RowName(i);
    var d1 := AddRows(map[], left, available, vip);
    var d2 := AddRows(d1, middle, available, vip);
    AddRowsGet(map[], left, k, available, vip);
    AddRowsGet(d1, middle, k, available, vip);
    AddRowsGet(d2, right, k, available, vip);
    LabelSeatsOf(left, i, available, vip);
    LabelSeatsOf(middle, i, available, vip);
    LabelSeatsOf(right, i, available, vip);
    assert Get(map[], k) == [];
    assert Get(d1, k) == RowSeats(left[i], available, vip);
    assert Get(d2, k) == RowSeats(left[i], available, vip) + RowSeats(middle[i], available, vip);
  }

  /** Three wings over the same rows A to U: each label's list is the left
      wing's seats, then the middle's, then the right wing's. */
  lemma ThreeWings(left: Wing, middle: Wing, right: Wing, available: Draw, vip: Draw)
    requires WellFormedWing(left) && WellFormedWing(middle) && WellFormedWing(right)
    ensures var data := AddWings(map[], [left, middle, right], available, vip);
      && (forall k :: k in data <==> IsRowName(k))
      && forall i :: 0 <= i < ROW_COUNT ==>
           && RowName(i) in data
           && data[RowName(i)] == RowSeats(left[i], available, vip) + RowSeats(middle[i], available, vip)
                + RowSeats(right[i], available, vip)
  {
    var ws := [left, middle, right];
    assert ws[..2][..1] == [left] && ws[..2][1] == middle && ws[..2] == [left, middle];
    assert [left][..0] == [];
    var d1 := AddRows(map[], left, available, vip);
    var d2 := AddRows(d1, middle, available, vip);
    var d3 := AddRows(d2, right, available, vip);
    assert AddWings(map[], [left], available, vip) == d1;
    assert AddWings(map[], [left, middle], available, vip) == d2;
    assert AddWings(map[], ws, available, vip) == d3;
    forall k ensures k in d3 <==> IsRowName(k) {
      ThreeWingsKey(left, middle, right, available, vip, k);
    }
    forall i | 0 <= i < ROW_COUNT
      ensures RowName(i) in d3
      ensures d3[RowName(i)] == RowSeats(left[i], available, vip) + RowSeats(middle[i], available, vip)
                + RowSeats(right[i], available, vip)
    {
      assert IsRowName(RowName(i));
      ThreeWingsKey(left, middle, right, available, vip, RowName(i));
      ThreeWingsRow(left, middle, right, available, vip, i);
    }
  }

  /** In the generated map every seat sits under its own row's label, none
      is selected, and no seat number occurs twice in a row. */
  lemma GeneratedSeatsWellFormed(available: Draw, vip: Draw)
    ensures var data := AddWings(map[], WINGS, available, vip);
      forall k :: k in data ==>
        && (forall a :: 0 <= a < |data[k]| ==> data[k][a].rowLabel == k && !data[k][a].selected)
        && (forall a, b :: 0 <= a < b < |data[k]| ==> data[k][a].number != data[k][b].number)
  {
    ArrangementWellFormed();
    ThreeWings(LEFT_WING, MIDDLE, RIGHT_WING, available, vip);
    var data: SeatData := AddWings(map[], WINGS, available, vip);
    forall k: string | k in data
      ensures forall a :: 0 <= a < |data[k]| ==> data[k][a].rowLabel == k && !data[k][a].selected
      ensures forall a, b :: 0 <= a < b < |data[k]| ==> data[k][a].number != data[k][b].number
    {
      var i :| 0 <= i < ROW_COUNT && k == RowName(i);
      RowNumbersDistinct(i, available, vip);
    }
  }

  /** No seat number occurs twice. */
  predicate DistinctNumbers(row: seq<UiSeat>)
  {
    forall a, b :: 0 <= a < b < |row| ==> row[a].number != row[b].number
  }

  /** Every seat is an unselected seat of row `name`, numbered at least `lo`. */
  predicate FreshRowFrom(row: seq<UiSeat>, name: string, lo: int)
  {
    forall a :: 0 <= a < |row| ==> row[a].rowLabel == name && !row[a].selected && row[a].number >= lo
  }

  lemma SeatRangeFacts(name: string, from: int, to: int, available: Draw, vip: Draw)
    ensures var row := SeatRange(name, from, to, available, vip);
      && DistinctNumbers(row) && FreshRowFrom(row, name, from)
      && forall a :: 0 <= a < |row| ==> row[a].number <= to
  {
  }

  /** Two runs of distinct numbers, the first above the second, join into one. */
  lemma AppendDistinct(x: seq<UiSeat>, y: seq<UiSeat>, name: string, lo: int, loY: int)
    requires DistinctNumbers(x) && DistinctNumbers(y)
    requires FreshRowFrom(x, name, lo) && FreshRowFrom(y, name, loY)
    requires forall b :: 0 <= b < |y| ==> y[b].number < lo
    ensures DistinctNumbers(x + y) && FreshRowFrom(x + y, name, if lo < loY then lo else loY)
  {
    var xy := x + y;
    forall a, b | 0 <= a < b < |xy| ensures xy[a].number != xy[b].number {
      if b < |x| {
        assert xy[a] == x[a] && xy[b] == x[b];
      } else if a < |x| {
        assert xy[a] == x[a] && xy[b] == y[b - |x|];
      } else {
        assert xy[a] == y[a - |x|] && xy[b] == y[b - |x|];
      }
    }
    forall a | 0 <= a < |xy|
      ensures xy[a].rowLabel == name && !xy[a].selected && xy[a].number >= (if lo < loY then lo else loY)
    {
      if a < |x| {
        assert xy[a] == x[a];
      } else {
        assert xy[a] == y[a - |x|];
      }
    }
  }

  /** A row's seat numbers: the left wing's range, then the middle's, then
      the right wing's, which the ranges keep apart. */
  lemma RowNumbersDistinct(i: nat, available: Draw, vip: Draw)
    requires i < ROW_COUNT
    ensures var row := RowSeats(LEFT_WING[i], available, vip) + RowSeats(MIDDLE[i], available, vip)
        + RowSeats(RIGHT_WING[i], available, vip);
      && (forall a :: 0 <= a < |row| ==> row[a].rowLabel == RowName(i) && !row[a].selected)
      && DistinctNumbers(row)
  {
    ArrangementWellFormed();
    WingsDoNotOverlap();
    var left, mid, right := LEFT_WING[i], MIDDLE[i], RIGHT_WING[i];
    var name := RowName(i);
    assert left.rowLabel == name && mid.rowLabel == name && right.rowLabel == name;
    var l := RowSeats(left, available, vip);
    var m := RowSeats(mid, available, vip);
    var r := RowSeats(right, available, vip);
    SeatRangeFacts(name, left.startSeat, left.endSeat, available, vip);
    SeatRangeFacts(name, mid.startSeat, mid.endSeat, available, vip);
    SeatRangeFacts(name, right.startSeat, right.endSeat, available, vip);
    AppendDistinct(l, m, name, left.startSeat, mid.startSeat);
    AppendDistinct(l + m, r, name, mid.startSeat, right.startSeat);
  }

  /** On a generated seat map a click toggles one seat at most, since no
      number occurs twice in a row. */
  lemma GeneratedToggleFlipsOneSeat(s: SliceState, available: Draw, vip: Draw, k: string, n: int)
    requires s.seatData == AddWings(map[], WINGS, available, vip)
    requires k in s.seatData
    ensures ToggleSeatSelection(s, k, n).Some?
    ensures var before := s.seatData[k];
      var after := ToggleSeatSelection(s, k, n).value.seatData[k];
      forall a, b :: 0 <= a < b < |before| ==> after[a] == before[a] || after[b] == before[b]
  {
    GeneratedSeatsWellFormed(available, vip);
  }
}
