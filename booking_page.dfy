/** The booking page's state and its handlers: loading the grid for the
    selected day, clicks on cells, the confirmation dialog, confirming the
    selection, changing the day and logging out. */
module BookingPage {
  import opened Optional
  import opened JsText
  import opened SeqUtils
  import opened JsValues
  import opened Domain
  import opened RoomCatalogue
  import opened GridReconciler
  import opened BookingRules

  /** The confirmation dialog and the action its confirm button runs. */
  datatype Dialog =
    | NoDialog
    | CancelDialog(room: Room, time: string, ymd: string, booking: Reservation)
    | ChangeRoomDialog(room: Room, time: string)

  /** The request a confirmed cancellation sends. */
  datatype CancelRequest = CancelRequest(roomId: string, ymd: string, hour: Option<int>, resId: string)

  datatype BookingOutcome =
    | NothingToBook
    | GapRejected
    | Submitted(requests: seq<BookingRequest>, successCount: nat, failCount: nat, refetch: bool)

  /** The ids of the rooms, in the order their availability is fetched. */
  function RoomIds(rooms: seq<Room>): (ids: seq<string>)
    ensures |ids| == |rooms| && forall i :: 0 <= i < |rooms| ==> ids[i] == rooms[i].id
  {
    seq(|rooms|, i requires 0 <= i < |rooms| => rooms[i].id)
  }

  /** Entries synthesized from a room's `room` list are tagged "me", not
      with the user's id, so the daily cap and the gap rule count them only
      once the overlay has relabelled them. */
  lemma MeEntriesNotCounted(reservations: seq<Reservation>, userId: string, dashedDate: string)
    requires userId != MeTag
    ensures var mine := MyDailyReservations(reservations, userId, dashedDate);
            forall i :: 0 <= i < |mine| ==> mine[i].userId != MeTag
  {
  }

  class Page {
    var user: Option<User>
    var selectedDate: DateTime
    var rooms: seq<Room>
    var reservations: seq<Reservation>
    var selection: seq<Slot>
    var dialog: Dialog
    var loginOpen: bool
    var selectedFloor: string
    var minCapacity: int

    /** What every handler keeps: a real calendar day, grid start times that
        are padded hours, and a selection of distinct cells of one room;
        selected and pending cells carry cell times. */
    ghost predicate Valid()
      reads this
    {
      && ValidDateTime(selectedDate)
      && HourStartTimes(reservations)
      && SingleRoom(selection)
      && DistinctPairs(selection)
      && (forall i :: 0 <= i < |selection| ==> IsCellTime(selection[i].time))
      && (!dialog.NoDialog? ==> IsCellTime(dialog.time))
    }

    /** The rooms the grid shows under the floor and capacity filters: the
        page's rooms on the chosen floor with the chosen capacity, each of
        them, and no other. */
    function VisibleRooms(): (shown: seq<Room>)
      reads this
      ensures forall r :: r in shown ==>
                r in rooms && (selectedFloor == "All" || r.floor == selectedFloor)
                && (minCapacity <= 0 || r.capacity == minCapacity)
      ensures forall i ::
                0 <= i < |rooms| && (selectedFloor == "All" || rooms[i].floor == selectedFloor)
                && (minCapacity <= 0 || rooms[i].capacity == minCapacity)
                ==> rooms[i] in shown
    {
      FilterRoomsMembers(rooms, selectedFloor, minCapacity);
      FilterRooms(rooms, selectedFloor, minCapacity)
    }

    constructor(today: DateTime)
      requires ValidDateTime(today)
      ensures Valid()
      ensures user.None? && selectedDate == today && rooms == [] && reservations == [] && selection == []
      ensures dialog == NoDialog && !loginOpen && selectedFloor == "All" && minCapacity == 0
    {
      user := None;
      selectedDate := today;
      rooms := [];
      reservations := [];
      selection := [];
      dialog := NoDialog;
      loginOpen := false;
      selectedFloor := "All";
      minCapacity := 0;
    }

    /** A restored or new session. */
    method SignIn(u: User)
      requires Valid()
      modifies this
      ensures Valid()
      ensures user == Some(u) && !loginOpen
      ensures selectedDate == old(selectedDate) && rooms == old(rooms) && reservations == old(reservations)
      ensures selection == old(selection) && dialog == old(dialog)
      ensures selectedFloor == old(selectedFloor) && minCapacity == old(minCapacity)
    {
      user := Some(u);
      loginOpen := false;
    }

    /** Logging out forgets the user, the grid's reservations and the
        selection; the rooms stay. */
    method Logout()
      requires Valid()
      modifies this
      ensures Valid()
      ensures user.None? && reservations == [] && selection == []
      ensures rooms == old(rooms) && selectedDate == old(selectedDate) && dialog == old(dialog)
      ensures loginOpen == old(loginOpen)
      ensures selectedFloor == old(selectedFloor) && minCapacity == old(minCapacity)
    {
      user := None;
      reservations := [];
      selection := [];
    }

    /** Picking another day clears the selection. */
    method ChangeDate(d: DateTime)
      requires Valid() && ValidDateTime(d)
      modifies this
      ensures Valid()
      ensures selectedDate == d && selection == []
      ensures user == old(user) && rooms == old(rooms) && reservations == old(reservations)
      ensures dialog == old(dialog)
      ensures loginOpen == old(loginOpen)
      ensures selectedFloor == old(selectedFloor) && minCapacity == old(minCapacity)
    {
      selectedDate := d;
      selection := [];
    }

    method SetFilters(floor: string, capacity: int)
      requires Valid()
      modifies this
      ensures Valid()
      ensures selectedFloor == floor && minCapacity == capacity
      ensures user == old(user) && rooms == old(rooms) && reservations == old(reservations)
      ensures selection == old(selection) && selectedDate == old(selectedDate)
      ensures dialog == old(dialog)
      ensures loginOpen == old(loginOpen)
    {
      selectedFloor := floor;
      minCapacity := capacity;
    }

    /** One load of the grid. Without a token and a user nothing happens; a
        missing facility list changes nothing; otherwise the rooms are
        replaced first, then the reservations by the reconciled grid, unless
        reconciliation threw, which keeps the old reservations. */
    method ApplyFetch(hasToken: bool, facilities: Option<seq<Facility>>, fetches: seq<RoomFetch>,
                      myResponse: CallResult<Payload<OwnRecord>>)
      requires Valid()
      requires facilities.Some? ==> |fetches| == |DeriveRooms(facilities.value)|
      modifies this
      ensures Valid()
      ensures user == old(user) && selectedDate == old(selectedDate) && selection == old(selection)
      ensures dialog == old(dialog)
      ensures loginOpen == old(loginOpen)
      ensures selectedFloor == old(selectedFloor) && minCapacity == old(minCapacity)
      ensures (!hasToken && old(user).None?) || facilities.None? ==>
                rooms == old(rooms) && reservations == old(reservations)
      ensures (hasToken || old(user).Some?) && facilities.Some? ==>
                var derived := DeriveRooms(facilities.value);
                var grid := ReconcileSpec(RoomIds(derived), CompactDate(selectedDate), fetches, user, myResponse);
                && rooms == derived
                && reservations == (if grid.Some? then grid.value else old(reservations))
    {
      if !hasToken && user.None? {
        return;
      }
      if facilities.None? {
        return;
      }
      rooms := DeriveRooms(facilities.value);
      var ids := RoomIds(rooms);
      var grid := Reconcile(ids, CompactDate(selectedDate), fetches, user, myResponse);
      if grid.Some? {
        ReconciledHourStartTimes(ids, CompactDate(selectedDate), fetches, user, myResponse);
        reservations := grid.value;
      }
    }

    /** A click on the cell of `hour` in `room`'s row (the row passes the
        unpadded "H:00"). */
    method HandleSlotClick(room: Room, hour: nat) returns (outcome: ClickOutcome)
      requires Valid()
      modifies this
      ensures Valid()
      ensures var r := SlotClick(old(user), old(reservations), old(selection), DashedDate(old(selectedDate)),
                                 room, CellTime(hour));
              outcome == r.outcome && selection == r.selection
      ensures outcome == AskLogin ==> loginOpen
      ensures outcome != AskLogin ==> loginOpen == old(loginOpen)
      ensures outcome.AskCancel? ==>
                dialog == CancelDialog(room, CellTime(hour), CompactDate(selectedDate), outcome.booking)
      ensures outcome == AskChangeRoom ==> dialog == ChangeRoomDialog(room, CellTime(hour))
      ensures outcome != AskLogin && outcome != AskChangeRoom && !outcome.AskCancel? ==> dialog == old(dialog)
      ensures user == old(user) && selectedDate == old(selectedDate) && rooms == old(rooms)
      ensures reservations == old(reservations)
      ensures selectedFloor == old(selectedFloor) && minCapacity == old(minCapacity)
    {
      var time := CellTime(hour);
      var r := SlotClick(user, reservations, selection, DashedDate(selectedDate), room, time);
      ClickKeepsSelectionWellFormed(user, reservations, selection, DashedDate(selectedDate), room, time);
      CellTimeIsCellTime(hour);
      ClickKeepsCellTimes(user, reservations, selection, DashedDate(selectedDate), room, time);
      outcome := r.outcome;
      match r.outcome {
        case AskLogin =>
          loginOpen := true;
        case AskCancel(b) =>
          dialog := CancelDialog(room, time, CompactDate(selectedDate), b);
        case AskChangeRoom =>
          dialog := ChangeRoomDialog(room, time);
        case _ =>
      }
      selection := r.selection;
    }

    /** The dialog's confirm button. Restarting the selection in another room
        puts the clicked cell alone in it, without the four-hour check. A
        cancellation sends one request; `cancelled` says whether its reply
        counts as a success (the page then reloads the grid). */
    method ConfirmDialog(response: CallResult<Payload<int>>) returns (request: Option<CancelRequest>, cancelled: bool)
      requires Valid()
      modifies this
      ensures Valid()
      ensures dialog == NoDialog
      ensures old(dialog).NoDialog? ==> request.None? && !cancelled && selection == old(selection)
      ensures old(dialog).ChangeRoomDialog? ==>
                request.None? && !cancelled
                && selection == [Slot(old(dialog).room, old(dialog).time)]
      ensures old(dialog).CancelDialog? ==>
                && selection == old(selection)
                && request == Some(CancelRequest(old(dialog).room.id, old(dialog).ymd, ParseInt(old(dialog).time),
                                                 old(dialog).booking.id))
                && cancelled == CancelSucceeded(response)
      ensures user == old(user) && selectedDate == old(selectedDate) && rooms == old(rooms)
      ensures reservations == old(reservations)
      ensures loginOpen == old(loginOpen)
      ensures selectedFloor == old(selectedFloor) && minCapacity == old(minCapacity)
    {
      request, cancelled := None, false;
      match dialog {
        case NoDialog =>
        case ChangeRoomDialog(room, time) =>
          selection := [Slot(room, time)];
        case CancelDialog(room, time, ymd, booking) =>
          request := Some(CancelRequest(room.id, ymd, ParseInt(time), booking.id));
          cancelled := CancelSucceeded(response);
      }
      dialog := NoDialog;
    }

    /** The dialog's close button. */
    method DismissDialog()
      requires Valid()
      modifies this
      ensures Valid()
      ensures dialog == NoDialog
      ensures user == old(user) && selectedDate == old(selectedDate) && rooms == old(rooms)
      ensures reservations == old(reservations) && selection == old(selection)
      ensures loginOpen == old(loginOpen)
      ensures selectedFloor == old(selectedFloor) && minCapacity == old(minCapacity)
    {
      dialog := NoDialog;
    }

    /** Booking the selection: nothing without a user or a selection; refused,
        with the selection kept, when the day's hours would leave a one-hour
        gap; otherwise one request per selected slot in ascending hour order,
        after which the selection is cleared and, only if none failed, the grid
        is reloaded. */
    method ConfirmBooking(responses: seq<BookingResponse>) returns (outcome: BookingOutcome)
      requires Valid()
      requires |responses| == |selection|
      modifies this
      ensures Valid()
      ensures outcome == NothingToBook <==> old(selection) == [] || old(user).None?
      ensures outcome == NothingToBook ==> selection == old(selection)
      ensures old(selection) != [] && old(user).Some? ==>
                var hours := DayHours(old(reservations), old(user).value.userId, DashedDate(old(selectedDate)), old(selection));
                (outcome == GapRejected <==> HasOneHourGap(hours))
                && (outcome == GapRejected ==> selection == old(selection))
                && (!HasOneHourGap(hours) ==> outcome.Submitted?)
      ensures outcome.Submitted? ==>
                var sorted := SortedSlots(old(selection));
                && selection == []
                && |outcome.requests| == |sorted|
                && (forall i :: 0 <= i < |sorted| ==>
                      outcome.requests[i] == RequestFor(sorted[i], old(user).value, CompactDate(old(selectedDate))))
                && outcome.successCount == SuccessCount(responses)
                && outcome.successCount + outcome.failCount == |old(selection)|
                && outcome.refetch == (outcome.failCount == 0)
      ensures user == old(user) && selectedDate == old(selectedDate) && rooms == old(rooms)
      ensures reservations == old(reservations) && dialog == old(dialog)
      ensures loginOpen == old(loginOpen)
      ensures selectedFloor == old(selectedFloor) && minCapacity == old(minCapacity)
    {
      if |selection| == 0 || user.None? {
        return NothingToBook;
      }
      var sorted := SortedSlots(selection);
      var hours := DayHours(reservations, user.value.userId, DashedDate(selectedDate), selection);
      var gap := FindGap(hours);
      if gap {
        return GapRejected;
      }
      var requests, successCount, failCount := BookSequentially(sorted, user.value, CompactDate(selectedDate), responses);
      selection := [];
      outcome := Submitted(requests, successCount, failCount, failCount == 0);
    }
  }
}
