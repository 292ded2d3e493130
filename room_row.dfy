/** One room's row of the booking grid: a cell per operating hour, the status
    each cell shows, whether it is selected, and whether it passes a click on
    to the page. */
module RoomRow {
  import opened Optional
  import opened JsText
  import opened SeqUtils
  import opened Domain
  import opened OperatingHours
  import BookingRules

  datatype SlotStatus = Available | Booked | MyBooking

  /** A reservation occupies the cell of `hour`: same room, the shown day, and
      a start time beginning with the hour's padded time. */
  predicate OccupiesHour(r: Reservation, roomId: string, dashedDate: string, hour: int) {
    r.roomId == roomId && r.date == dashedDate && StartsWith(r.startTime, HourTime(hour))
  }

  /** The cell's status: decided by the first reservation occupying it, which
      is the user's own or someone else's. */
  function GetSlotStatus(reservations: seq<Reservation>, roomId: string, dashedDate: string,
                         currentUserId: Option<string>, hour: int): (st: SlotStatus)
    ensures st == Available <==>
              forall i :: 0 <= i < |reservations| ==> !OccupiesHour(reservations[i], roomId, dashedDate, hour)
    ensures st != Available ==>
              exists k :: 0 <= k < |reservations| && OccupiesHour(reservations[k], roomId, dashedDate, hour)
                          && (forall j :: 0 <= j < k ==> !OccupiesHour(reservations[j], roomId, dashedDate, hour))
                          && (st == MyBooking <==> currentUserId == Some(reservations[k].userId))
  {
    match FindFirst(reservations, (r: Reservation) => OccupiesHour(r, roomId, dashedDate, hour))
    case None => Available
    case Some(k) => if currentUserId == Some(reservations[k].userId) then MyBooking else Booked
  }

  /** On a grid whose start times are padded hours, a cell is taken exactly
      when a reservation of that room and day starts at that hour. */
  lemma StatusByStartHour(reservations: seq<Reservation>, roomId: string, dashedDate: string,
                          currentUserId: Option<string>, hour: int)
    requires HourStartTimes(reservations)
    ensures GetSlotStatus(reservations, roomId, dashedDate, currentUserId, hour) != Available <==>
              exists i :: 0 <= i < |reservations| && reservations[i].roomId == roomId
                          && reservations[i].date == dashedDate && BookingRules.StartHour(reservations[i]) == hour
  {
    forall i | 0 <= i < |reservations| && reservations[i].roomId == roomId && reservations[i].date == dashedDate
      ensures OccupiesHour(reservations[i], roomId, dashedDate, hour) <==> BookingRules.StartHour(reservations[i]) == hour
    {
      assert IsHourTime(reservations[i].startTime);
      HourTimePrefix(ParseInt(reservations[i].startTime).value, hour);
    }
  }

  /** The row's test for a selected cell, on the (room id, time) pairs the
      page hands it. */
  predicate IsSlotSelected(pairs: seq<(string, string)>, roomId: string, time: string) {
    exists i :: 0 <= i < |pairs| && pairs[i].0 == roomId && pairs[i].1 == time
  }

  /** The pairs the page hands the row. */
  function SelectedPairs(selection: seq<Slot>): (pairs: seq<(string, string)>)
    ensures |pairs| == |selection|
    ensures forall i :: 0 <= i < |selection| ==> pairs[i] == (selection[i].room.id, selection[i].time)
  {
    seq(|selection|, i requires 0 <= i < |selection| => BookingRules.PairOf(selection[i]))
  }

  /** The row marks a cell selected exactly when the page's selection holds
      that slot. */
  lemma SelectedAgrees(selection: seq<Slot>, roomId: string, time: string)
    ensures IsSlotSelected(SelectedPairs(selection), roomId, time) <==> BookingRules.IsSelected(selection, roomId, time)
  {
    var pairs := SelectedPairs(selection);
    if IsSlotSelected(pairs, roomId, time) {
      var i :| 0 <= i < |pairs| && pairs[i].0 == roomId && pairs[i].1 == time;
      assert BookingRules.SamePair(selection[i], roomId, time);
    }
  }

  /** A cell passes a click on for a free or an own slot. */
  predicate Forwards(st: SlotStatus) {
    st == Available || st == MyBooking
  }

  /** The cell's button is disabled for someone else's booking. */
  predicate Disabled(st: SlotStatus) {
    st == Booked
  }

  datatype Cell = Cell(
    hour: nat,
    header: string,     // the header, with midnight shown as "24"
    time: string,       // what a click passes on: the unpadded "H:00"
    status: SlotStatus,
    selected: bool)

  /** The header of an hour's cell. */
  function HourLabel(hour: nat): (header: string)
    ensures hour == 0 ==> header == "24"
    ensures hour != 0 ==> ParseInt(header) == Some(hour as int)
  {
    if hour == 0 then "24"
    else
      ParseIntNatToString(hour, "");
      assert NatToString(hour) + "" == NatToString(hour);
      NatToString(hour)
  }

  function CellAt(room: Room, reservations: seq<Reservation>, dashedDate: string,
                  currentUserId: Option<string>, pairs: seq<(string, string)>, hour: nat): Cell
  {
    Cell(hour, HourLabel(hour), CellTime(hour),
         GetSlotStatus(reservations, room.id, dashedDate, currentUserId, hour),
         IsSlotSelected(pairs, room.id, CellTime(hour)))
  }

  /** The row: one cell per operating hour of the day, in that order. */
  function RowCells(room: Room, reservations: seq<Reservation>, date: DateTime,
                    currentUserId: Option<string>, pairs: seq<(string, string)>): (cells: seq<Cell>)
    ensures |cells| == |OperatingHoursOf(date)|
    ensures forall i :: 0 <= i < |cells| ==>
              cells[i].hour == OperatingHoursOf(date)[i]
              && cells[i].time == CellTime(cells[i].hour)
              && cells[i].status == GetSlotStatus(reservations, room.id, DashedDate(date), currentUserId, cells[i].hour)
              && cells[i].header == HourLabel(cells[i].hour)
              && cells[i].selected == IsSlotSelected(pairs, room.id, cells[i].time)
  {
    var hours := OperatingHoursOf(date);
    seq(|hours|, i requires 0 <= i < |hours| => CellAt(room, reservations, DashedDate(date), currentUserId, pairs, hours[i]))
  }

  /** In the exam period the row opens with midnight, labelled "24", then
      1:00; otherwise it opens at 8:00. Cells never repeat an hour. */
  lemma RowShape(room: Room, reservations: seq<Reservation>, date: DateTime,
                 currentUserId: Option<string>, pairs: seq<(string, string)>)
    ensures var cells := RowCells(room, reservations, date, currentUserId, pairs);
            && (IsExamPeriod(date) ==> cells[0].header == "24" && cells[0].time == "0:00" && cells[1].hour == 1)
            && (!IsExamPeriod(date) ==> cells[0].hour == 8 && cells[0].time == "8:00")
            && (forall i, j :: 0 <= i < j < |cells| ==> cells[i].hour < cells[j].hour)
  {
    var hours := OperatingHoursOf(date);
    var cells := RowCells(room, reservations, date, currentUserId, pairs);
    OperatingHoursIncreasing(date);
    assert cells[0] == CellAt(room, reservations, DashedDate(date), currentUserId, pairs, hours[0]);
    FirstCellTimes();
  }

  lemma FirstCellTimes()
    ensures CellTime(0) == "0:00" && CellTime(8) == "8:00"
  {
  }

  /** A click on a cell reaches the page exactly when its button is enabled. */
  lemma ClickReachesPageIffEnabled(cell: Cell)
    ensures Forwards(cell.status) <==> !Disabled(cell.status)
  {
  }
}
