/** The front end's seat-selection state: the seat map per row, whether
    it has been loaded, the chosen show date and the show dates on offer,
    with the four reducers that change it. A reducer that dereferences a
    row the map does not have throws; that is `None` here. */
module SeatSelectionSlice {
  import opened Wrappers
  import opened SeatStore

  /** A seat as the seat map holds it. */
  datatype UiSeat = UiSeat(number: int, rowLabel: string, available: bool, selected: bool, seatType: SeatType)

  type SeatData = map<string, seq<UiSeat>>

  // `label` in the program; the word is reserved in Dafny.
  datatype ShowDate = ShowDate(caption: string, value: string)

  datatype SliceState = SliceState(seatData: SeatData, initialized: bool, selectedDate: string, showDates: seq<ShowDate>)

  const SHOW_DATES: seq<ShowDate> := [
    ShowDate("14 Aug, 7:30pm - 10:00pm", "2025-08-14"),
    ShowDate("15 Aug, 7:30pm - 10:00pm", "2025-08-15"),
    ShowDate("16 Aug, 7:30pm - 10:00pm", "2025-08-16")
  ]

  /** Nothing loaded yet, and the first show date chosen. */
  function InitialState(): (s: SliceState)
    ensures s.seatData == map[] && !s.initialized
    ensures s.selectedDate == SHOW_DATES[0].value == "2025-08-14"
    ensures s.showDates == SHOW_DATES && |s.showDates| == 3
  {
    SliceState(map[], false, SHOW_DATES[0].value, SHOW_DATES)
  }

  /** `initializeSeatData`: the map is replaced wholesale. */
  function InitializeSeatData(s: SliceState, payload: SeatData): (r: SliceState)
    ensures r.seatData == payload && r.initialized
    ensures r.selectedDate == s.selectedDate && r.showDates == s.showDates
  {
    s.(seatData := payload, initialized := true)
  }

  /** The seats of a row with the matching seats flipped. */
  function ToggleRow(row: seq<UiSeat>, number: int): (r: seq<UiSeat>)
    ensures |r| == |row|
    ensures forall i :: 0 <= i < |row| ==>
      r[i] == if row[i].number == number then row[i].(selected := !row[i].selected) else row[i]
  {
    seq(|row|, i requires 0 <= i < |row| =>
      if row[i].number == number then row[i].(selected := !row[i].selected) else row[i])
  }

  /** `toggleSeatSelection`: flips `selected` on the seats of that row
      with that number. */
  function ToggleSeatSelection(s: SliceState, rowLabel: string, number: int): (r: Option<SliceState>)
    ensures r.None? <==> rowLabel !in s.seatData
    ensures r.Some? ==>
      && r.value.initialized == s.initialized && r.value.selectedDate == s.selectedDate
      && r.value.showDates == s.showDates
      && r.value.seatData.Keys == s.seatData.Keys
      && (forall k :: k in s.seatData && k != rowLabel ==> r.value.seatData[k] == s.seatData[k])
      && var before := s.seatData[rowLabel];
      var after := r.value.seatData[rowLabel];
      && |after| == |before|
      && (forall i :: 0 <= i < |before| && before[i].number == number ==>
            after[i].selected == !before[i].selected
            && after[i] == before[i].(selected := after[i].selected))
      && (forall i :: 0 <= i < |before| && before[i].number != number ==> after[i] == before[i])
  {
    if rowLabel !in s.seatData then None
    else Some(s.(seatData := s.seatData[rowLabel := ToggleRow(s.seatData[rowLabel], number)]))
  }

  /** Toggling the same seat twice gives the state back. */
  lemma ToggleInvolution(s: SliceState, rowLabel: string, number: int)
    requires rowLabel in s.seatData
    ensures ToggleSeatSelection(s, rowLabel, number).Some?
    ensures var once := ToggleSeatSelection(s, rowLabel, number).value;
      ToggleSeatSelection(once, rowLabel, number) == Some(s)
  {
    var once := ToggleSeatSelection(s, rowLabel, number).value;
    var twice := ToggleSeatSelection(once, rowLabel, number).value;
    assert twice.seatData[rowLabel] == s.seatData[rowLabel];
    assert twice.seatData == s.seatData;
  }

  /** The seats of a row with the matching seats taken off sale. */
  function MarkRowUnavailable(row: seq<UiSeat>, number: int): (r: seq<UiSeat>)
    ensures |r| == |row|
    ensures forall i :: 0 <= i < |row| ==>
      r[i] == if row[i].number == number then row[i].(available := false, selected := false) else row[i]
  {
    seq(|row|, i requires 0 <= i < |row| =>
      if row[i].number == number then row[i].(available := false, selected := false) else row[i])
  }

  /** `setSeatUnavailable`: the seats of that row with that number become
      unavailable and unselected; nothing else changes. */
  function SetSeatUnavailable(s: SliceState, rowLabel: string, number: int): (r: Option<SliceState>)
    ensures r.None? <==> rowLabel !in s.seatData
    ensures r.Some? ==>
      && r.value.initialized == s.initialized && r.value.selectedDate == s.selectedDate
      && r.value.showDates == s.showDates
      && r.value.seatData.Keys == s.seatData.Keys
      && (forall k :: k in s.seatData && k != rowLabel ==> r.value.seatData[k] == s.seatData[k])
      && var before := s.seatData[rowLabel];
      var after := r.value.seatData[rowLabel];
      && |after| == |before|
      && (forall i :: 0 <= i < |before| && before[i].number == number ==>
            !after[i].available && !after[i].selected
            && after[i] == before[i].(available := false, selected := false))
      && (forall i :: 0 <= i < |before| && before[i].number != number ==> after[i] == before[i])
  {
    if rowLabel !in s.seatData then None
    else Some(s.(seatData := s.seatData[rowLabel := MarkRowUnavailable(s.seatData[rowLabel], number)]))
  }

  /** Marking a seat unavailable twice is the same as once. */
  lemma SetSeatUnavailableIdempotent(s: SliceState, rowLabel: string, number: int)
    requires rowLabel in s.seatData
    ensures SetSeatUnavailable(s, rowLabel, number).Some?
    ensures var once := SetSeatUnavailable(s, rowLabel, number).value;
      SetSeatUnavailable(once, rowLabel, number) == Some(once)
  {
    var once := SetSeatUnavailable(s, rowLabel, number).value;
    var twice := SetSeatUnavailable(once, rowLabel, number).value;
    assert twice.seatData[rowLabel] == once.seatData[rowLabel];
    assert twice.seatData == once.seatData;
  }

  /** `setSelectedDate`: only the chosen date changes. */
  function SetSelectedDate(s: SliceState, date: string): (r: SliceState)
    ensures r.selectedDate == date
    ensures r.seatData == s.seatData && r.initialized == s.initialized && r.showDates == s.showDates
  {
    s.(selectedDate := date)
  }
}
