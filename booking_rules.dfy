/** The booking page's rules for a click on a grid cell and for confirming a
    selection: the cancellation lookup, the single-room selection, the
    four-hour daily cap, the one-hour-gap rule and the sequential booking
    loop. */
module BookingRules {
  import opened Optional
  import opened JsText
  import opened SeqUtils
  import opened JsValues
  import opened Domain

  /** At most this many hours per user and day, counting what is booked and
      what is selected. */
  const MaxHoursPerDay: nat := 4

  // ---------------------------------------------------------------------------
  // The selection

  /** A selected slot is identified by its room's id and its cell time. */
  predicate SamePair(s: Slot, roomId: string, time: string) {
    s.room.id == roomId && s.time == time
  }

  function PairOf(s: Slot): (string, string) {
    (s.room.id, s.time)
  }

  predicate IsSelected(selection: seq<Slot>, roomId: string, time: string) {
    exists i :: 0 <= i < |selection| && SamePair(selection[i], roomId, time)
  }

  /** Every selected slot is of the first one's room. */
  ghost predicate SingleRoom(selection: seq<Slot>) {
    forall i :: 0 <= i < |selection| ==> selection[i].room.id == selection[0].room.id
  }

  /** No (room, time) pair is selected twice. */
  ghost predicate DistinctPairs(selection: seq<Slot>) {
    DistinctBy(selection, PairOf)
  }

  /** The user's own reservations on the selected day, as the daily cap and
      the gap rule count them. */
  function MyDailyReservations(reservations: seq<Reservation>, userId: string, dashedDate: string): (r: seq<Reservation>)
    ensures forall i :: 0 <= i < |r| ==> r[i] in reservations && r[i].userId == userId && r[i].date == dashedDate
    ensures forall i :: 0 <= i < |reservations| && reservations[i].userId == userId && reservations[i].date == dashedDate ==>
                          reservations[i] in r
  {
    FilterMembers(reservations, (x: Reservation) => x.userId == userId && x.date == dashedDate);
    Filter(reservations, (x: Reservation) => x.userId == userId && x.date == dashedDate)
  }

  /** What the cancellation lookup asks of a grid reservation: this room,
      this user, and a start time that begins with the clicked cell's time. */
  predicate IsOwnBookingAt(r: Reservation, roomId: string, userId: string, time: string) {
    r.roomId == roomId && r.userId == userId && StartsWith(r.startTime, time)
  }

  /** The first reservation of the grid that the lookup accepts. */
  function OwnBookingAt(reservations: seq<Reservation>, roomId: string, userId: string, time: string): (b: Option<Reservation>)
    ensures b.Some? ==> b.value in reservations && IsOwnBookingAt(b.value, roomId, userId, time)
    ensures b.None? <==> forall i :: 0 <= i < |reservations| ==> !IsOwnBookingAt(reservations[i], roomId, userId, time)
  {
    match FindFirst(reservations, (x: Reservation) => IsOwnBookingAt(x, roomId, userId, time))
    case Some(k) => Some(reservations[k])
    case None => None
  }

  // ---------------------------------------------------------------------------
  // A click on a cell

  datatype ClickOutcome =
    | AskLogin                       // the login dialog opens
    | AskCancel(booking: Reservation) // a dialog offers to cancel this booking
    | Deselected                     // the slot left the selection
    | AskChangeRoom                  // a dialog offers to restart the selection here
    | CapReached                     // the four-hour cap refused the slot
    | Selected                       // the slot joined the selection

  datatype ClickResult = ClickResult(outcome: ClickOutcome, selection: seq<Slot>)

  /** The selection after a click on the cell `time` of `room`, and what the
      page shows. */
  function SlotClick(user: Option<User>, reservations: seq<Reservation>, selection: seq<Slot>,
                     dashedDate: string, room: Room, time: string): (r: ClickResult)
    ensures r.outcome == AskLogin <==> user.None?
    ensures r.outcome != Selected && r.outcome != Deselected ==> r.selection == selection
    ensures r.outcome.AskCancel? ==>
              user.Some? && r.outcome.booking in reservations
              && r.outcome.booking.roomId == room.id && r.outcome.booking.userId == user.value.userId
    ensures r.outcome == Selected ==>
              user.Some? && !IsSelected(selection, room.id, time)
              && r.selection == selection + [Slot(room, time)]
              && |MyDailyReservations(reservations, user.value.userId, dashedDate)| + |r.selection| <= MaxHoursPerDay
  {
    if user.None? then ClickResult(AskLogin, selection)
    else
      match OwnBookingAt(reservations, room.id, user.value.userId, time)
      case Some(b) => ClickResult(AskCancel(b), selection)
      case None =>
        if IsSelected(selection, room.id, time) then
          ClickResult(Deselected, Filter(selection, (s: Slot) => !SamePair(s, room.id, time)))
        else if |selection| > 0 && selection[0].room.id != room.id then
          ClickResult(AskChangeRoom, selection)
        else if |MyDailyReservations(reservations, user.value.userId, dashedDate)| + |selection| >= MaxHoursPerDay then
          ClickResult(CapReached, selection)
        else
          ClickResult(Selected, selection + [Slot(room, time)])
  }

  /** A click on a selected slot (not one of the user's bookings) removes that
      slot and nothing else; with no duplicate pairs the selection shrinks by
      exactly one. */
  lemma ClickDeselects(user: Option<User>, reservations: seq<Reservation>, selection: seq<Slot>,
                       dashedDate: string, room: Room, time: string)
    requires user.Some? && OwnBookingAt(reservations, room.id, user.value.userId, time).None?
    requires IsSelected(selection, room.id, time)
    ensures var r := SlotClick(user, reservations, selection, dashedDate, room, time);
            && r.outcome == Deselected
            && (forall i :: 0 <= i < |r.selection| ==> r.selection[i] in selection && !SamePair(r.selection[i], room.id, time))
            && (forall i :: 0 <= i < |selection| && !SamePair(selection[i], room.id, time) ==> selection[i] in r.selection)
            && (DistinctPairs(selection) ==> |r.selection| == |selection| - 1)
  {
    var p := (s: Slot) => !SamePair(s, room.id, time);
    FilterMembers(selection, p);
    if DistinctPairs(selection) {
      var k :| 0 <= k < |selection| && SamePair(selection[k], room.id, time);
      forall j | 0 <= j < |selection| && j != k ensures p(selection[j]) {
        if j < k {
          assert PairOf(selection[j]) != PairOf(selection[k]);
        } else {
          assert PairOf(selection[k]) != PairOf(selection[j]);
        }
      }
      FilterDropsOne(selection, p, k);
    }
  }

  /** An unselected slot of the selection's room, not one of the user's
      bookings, is refused exactly when booked and selected hours already
      reach the cap. */
  lemma ClickCap(user: Option<User>, reservations: seq<Reservation>, selection: seq<Slot>,
                 dashedDate: string, room: Room, time: string)
    requires user.Some? && OwnBookingAt(reservations, room.id, user.value.userId, time).None?
    requires !IsSelected(selection, room.id, time)
    requires |selection| == 0 || selection[0].room.id == room.id
    ensures var r := SlotClick(user, reservations, selection, dashedDate, room, time);
            var booked := |MyDailyReservations(reservations, user.value.userId, dashedDate)|;
            && (r.outcome == CapReached <==> booked + |selection| >= MaxHoursPerDay)
            && (r.outcome == Selected <==> booked + |selection| < MaxHoursPerDay)
  {
  }

  /** A click on another room's free slot never changes a non-empty
      single-room selection: it only asks whether to restart it. */
  lemma ClickOtherRoom(user: Option<User>, reservations: seq<Reservation>, selection: seq<Slot>,
                       dashedDate: string, room: Room, time: string)
    requires user.Some? && OwnBookingAt(reservations, room.id, user.value.userId, time).None?
    requires SingleRoom(selection) && |selection| > 0 && selection[0].room.id != room.id
    ensures var r := SlotClick(user, reservations, selection, dashedDate, room, time);
            r.outcome == AskChangeRoom && r.selection == selection
  {
  }

  /** Clicks keep the selection within one room and free of duplicate pairs. */
  lemma ClickKeepsSelectionWellFormed(user: Option<User>, reservations: seq<Reservation>, selection: seq<Slot>,
                                      dashedDate: string, room: Room, time: string)
    requires SingleRoom(selection) && DistinctPairs(selection)
    ensures var r := SlotClick(user, reservations, selection, dashedDate, room, time);
            && SingleRoom(r.selection) && DistinctPairs(r.selection)
            && forall i :: 0 <= i < |r.selection| ==> r.selection[i] in selection || r.selection[i] == Slot(room, time)
  {
    var r := SlotClick(user, reservations, selection, dashedDate, room, time);
    if r.outcome == Deselected {
      var p := (s: Slot) => !SamePair(s, room.id, time);
      assert r.selection == Filter(selection, p);
      FilterMembers(selection, p);
      FilterDistinctBy(selection, p, PairOf);
      forall i | 0 <= i < |r.selection| ensures r.selection[i].room.id == selection[0].room.id {
        var m :| 0 <= m < |selection| && selection[m] == r.selection[i];
      }
    } else if r.outcome == Selected {
      var s' := r.selection;
      assert forall i :: 0 <= i < |selection| ==> s'[i] == selection[i];
      forall i, j | 0 <= i < j < |s'| ensures PairOf(s'[i]) != PairOf(s'[j]) {
        if j == |selection| {
          assert !SamePair(selection[i], room.id, time);
        }
      }
    }
  }

  /** Cells a click leaves selected carry cell times when the clicked cell
      and the earlier selection do. */
  lemma ClickKeepsCellTimes(user: Option<User>, reservations: seq<Reservation>, selection: seq<Slot>,
                            dashedDate: string, room: Room, time: string)
    requires SingleRoom(selection) && DistinctPairs(selection)
    requires IsCellTime(time) && forall i :: 0 <= i < |selection| ==> IsCellTime(selection[i].time)
    ensures var r := SlotClick(user, reservations, selection, dashedDate, room, time);
            forall i :: 0 <= i < |r.selection| ==> IsCellTime(r.selection[i].time)
  {
    var r := SlotClick(user, reservations, selection, dashedDate, room, time);
    ClickKeepsSelectionWellFormed(user, reservations, selection, dashedDate, room, time);
    forall i | 0 <= i < |r.selection| ensures IsCellTime(r.selection[i].time) {
      if r.selection[i] != Slot(room, time) {
        var m :| 0 <= m < |selection| && selection[m] == r.selection[i];
      }
    }
  }

  /** The start hour of a reservation, as parseInt reads it from its start
      time (every grid start time parses). */
  function StartHour(r: Reservation): int {
    ParseInt(r.startTime).GetOr(0)
  }

  /** A grid cell's time is unpadded ("9:00") while start times are padded
      ("09:00"), so a click finds a booking to cancel only from 10:00 on, and
      then exactly a booking of the user's in that room at that hour. */
  lemma CancelOnlyFromTen(user: Option<User>, reservations: seq<Reservation>, selection: seq<Slot>,
                          dashedDate: string, room: Room, h: nat)
    requires HourStartTimes(reservations)
    ensures var r := SlotClick(user, reservations, selection, dashedDate, room, CellTime(h));
            r.outcome.AskCancel? ==> h >= 10 && StartHour(r.outcome.booking) == h
    ensures user.Some? && h >= 10 ==>
              (SlotClick(user, reservations, selection, dashedDate, room, CellTime(h)).outcome.AskCancel?
               <==> exists i :: 0 <= i < |reservations| && reservations[i].roomId == room.id
                                && reservations[i].userId == user.value.userId && StartHour(reservations[i]) == h)
  {
    var r := SlotClick(user, reservations, selection, dashedDate, room, CellTime(h));
    if r.outcome.AskCancel? {
      var b := r.outcome.booking;
      var k :| 0 <= k < |reservations| && reservations[k] == b;
      assert IsHourTime(b.startTime);
      CellTimePrefix(ParseInt(b.startTime).value, h);
    }
    if user.Some? && h >= 10 {
      forall i | 0 <= i < |reservations| && reservations[i].roomId == room.id
                 && reservations[i].userId == user.value.userId && StartHour(reservations[i]) == h
        ensures IsOwnBookingAt(reservations[i], room.id, user.value.userId, CellTime(h))
      {
        assert IsHourTime(reservations[i].startTime);
        CellTimePrefix(h, h);
      }
    }
  }

  // ---------------------------------------------------------------------------
  // The one-hour-gap rule

  /** Two consecutive hours of a sorted list are two apart: a single free
      hour between two booked ones. */
  predicate HasOneHourGap(hours: seq<int>) {
    exists i :: 0 <= i < |hours| - 1 && hours[i + 1] - hours[i] == 2
  }

  /** The gap check's loop over consecutive pairs. */
  method FindGap(hours: seq<int>) returns (gap: bool)
    ensures gap <==> HasOneHourGap(hours)
  {
    var i := 0;
    while i + 1 < |hours|
      invariant 0 <= i <= |hours|
      invariant forall j :: 0 <= j < i && j + 1 < |hours| ==> hours[j + 1] - hours[j] != 2
    {
      if hours[i + 1] - hours[i] == 2 {
        return true;
      }
      i := i + 1;
    }
    return false;
  }

  function IntLe(a: int, b: int): bool {
    a <= b
  }

  lemma IntLeTotalPreorder()
    ensures TotalPreorder(IntLe)
  {
  }

  /** Numeric ascending sort of hours. */
  function SortedHours(hours: seq<int>): (r: seq<int>)
    ensures |r| == |hours|
  {
    SortBy(hours, IntLe)
  }

  lemma SortedHoursCorrect(hours: seq<int>)
    ensures multiset(SortedHours(hours)) == multiset(hours)
    ensures forall i, j :: 0 <= i < j < |hours| ==> SortedHours(hours)[i] <= SortedHours(hours)[j]
  {
    IntLeTotalPreorder();
    SortByCorrect(hours, IntLe);
  }

  predicate Ascending(s: seq<int>) {
    forall i, j :: 0 <= i < j < |s| ==> s[i] <= s[j]
  }

  /** A sorted list climbing from h to h + 2 without h + 1 steps by two
      somewhere on the way. */
  lemma {:induction false} GapBetween(s: seq<int>, a: nat, b: nat, h: int)
    requires Ascending(s)
    requires a < b < |s| && s[a] == h && s[b] == h + 2
    requires forall i :: 0 <= i < |s| ==> s[i] != h + 1
    ensures HasOneHourGap(s)
    decreases b - a
  {
    if s[a + 1] == h + 2 {
      assert s[a + 1] - s[a] == 2;
    } else {
      assert h <= s[a + 1] <= h + 2;
      GapBetween(s, a + 1, b, h);
    }
  }

  /** In a sorted list, a step by two leaves the hour between free. */
  lemma GapLeavesHourFree(s: seq<int>, i: nat)
    requires Ascending(s) && i + 1 < |s| && s[i + 1] - s[i] == 2
    ensures s[i] + 1 !in s
  {
    forall j | 0 <= j < |s| ensures s[j] != s[i] + 1 {
      if j <= i {
        assert s[j] <= s[i];
      } else {
        assert s[i + 1] <= s[j];
      }
    }
  }

  /** A sorted list has a step by two iff some h and h + 2 are in it and
      h + 1 is not. */
  lemma AscendingGapIff(s: seq<int>)
    requires Ascending(s)
    ensures HasOneHourGap(s) <==> exists h :: h in s && h + 2 in s && h + 1 !in s
  {
    if HasOneHourGap(s) {
      GapGivesFreeHour(s);
    }
    if exists h :: h in s && h + 2 in s && h + 1 !in s {
      var h :| h in s && h + 2 in s && h + 1 !in s;
      FreeHourGivesGap(s, h);
    }
  }

  lemma GapGivesFreeHour(s: seq<int>)
    requires Ascending(s) && HasOneHourGap(s)
    ensures exists h :: h in s && h + 2 in s && h + 1 !in s
  {
    var i :| 0 <= i < |s| - 1 && s[i + 1] - s[i] == 2;
    GapLeavesHourFree(s, i);
    assert s[i] in s && s[i] + 2 in s;
  }

  lemma FreeHourGivesGap(s: seq<int>, h: int)
    requires Ascending(s) && h in s && h + 2 in s && h + 1 !in s
    ensures HasOneHourGap(s)
  {
    var a :| 0 <= a < |s| && s[a] == h;
    var b :| 0 <= b < |s| && s[b] == h + 2;
    GapBetween(s, a, b, h);
  }

  /** The gap rule on the sorted hours holds exactly when some hour h and
      h + 2 are both taken and h + 1 is not. */
  lemma GapMeansFreeHour(hours: seq<int>)
    ensures HasOneHourGap(SortedHours(hours))
            <==> exists h :: h in hours && h + 2 in hours && h + 1 !in hours
  {
    var s := SortedHours(hours);
    SortedHoursCorrect(hours);
    forall x ensures x in s <==> x in hours {
      assert x in s <==> x in multiset(s);
      assert x in hours <==> x in multiset(hours);
    }
    AscendingGapIff(s);
  }

  // ---------------------------------------------------------------------------
  // Confirming the selection

  /** The hour parseInt reads from a cell time. */
  function SlotHour(s: Slot): int {
    ParseInt(s.time).GetOr(0)
  }

  function SlotLe(a: Slot, b: Slot): bool {
    SlotHour(a) <= SlotHour(b)
  }

  /** The selection in ascending hour order; slots of one hour keep their
      order. */
  function SortedSlots(selection: seq<Slot>): (r: seq<Slot>)
    ensures |r| == |selection|
  {
    SortBy(selection, SlotLe)
  }

  lemma SortedSlotsCorrect(selection: seq<Slot>)
    ensures multiset(SortedSlots(selection)) == multiset(selection)
    ensures forall i, j :: 0 <= i < j < |selection| ==>
              SlotHour(SortedSlots(selection)[i]) <= SlotHour(SortedSlots(selection)[j])
  {
    assert TotalPreorder(SlotLe);
    SortByCorrect(selection, SlotLe);
  }

  /** The hours the gap rule inspects: the user's booked hours of the day and
      the selected ones, sorted. */
  function DayHours(reservations: seq<Reservation>, userId: string, dashedDate: string, selection: seq<Slot>): (r: seq<int>)
    ensures |r| == |MyDailyReservations(reservations, userId, dashedDate)| + |selection|
  {
    var mine := MyDailyReservations(reservations, userId, dashedDate);
    var sorted := SortedSlots(selection);
    SortedHours(seq(|mine|, i requires 0 <= i < |mine| => StartHour(mine[i]))
                + seq(|sorted|, i requires 0 <= i < |sorted| => SlotHour(sorted[i])))
  }

  /** One reservation request of the booking loop. */
  datatype BookingRequest = BookingRequest(
    roomId: string,
    createId: string,
    remark: string,   // the organisation name, or "Student" when it is empty
    ymd: string,      // yyyyMMdd
    hour: int,
    adminYn: string)  // the library flag, or "N" when it is empty

  /** JavaScript's `a || b` on strings. */
  function OrDefault(s: string, default: string): (r: string)
    ensures r == (if s == "" then default else s)
  {
    if s == "" then default else s
  }

  function RequestFor(slot: Slot, user: User, ymd: string): (q: BookingRequest)
    ensures q.roomId == slot.room.id && q.createId == user.userId && q.ymd == ymd && q.hour == SlotHour(slot)
    ensures q.remark == (if user.orgName == "" then "Student" else user.orgName)
    ensures q.adminYn == (if user.libraryYn == "" then "N" else user.libraryYn)
  {
    BookingRequest(slot.room.id, user.userId, OrDefault(user.orgName, "Student"), ymd, SlotHour(slot),
                   OrDefault(user.libraryYn, "N"))
  }

  type BookingResponse = CallResult<Payload<int>>

  function SuccessCount(responses: seq<BookingResponse>): (n: nat)
    ensures n <= |responses|
  {
    |Filter(responses, x => BookingSucceeded(x))|
  }

  /** The booking loop: one request per slot in order, each answered by the
      next response; a response counts as a success or a failure. */
  method BookSequentially(slots: seq<Slot>, user: User, ymd: string, responses: seq<BookingResponse>)
    returns (requests: seq<BookingRequest>, successCount: nat, failCount: nat)
    requires |responses| == |slots|
    ensures |requests| == |slots|
    ensures forall i :: 0 <= i < |slots| ==> requests[i] == RequestFor(slots[i], user, ymd)
    ensures successCount == SuccessCount(responses)
    ensures successCount + failCount == |slots|
  {
    requests, successCount, failCount := [], 0, 0;
    var p := (r: BookingResponse) => BookingSucceeded(r);
    for i := 0 to |slots|
      invariant |requests| == i
      invariant forall j :: 0 <= j < i ==> requests[j] == RequestFor(slots[j], user, ymd)
      invariant successCount == |Filter(responses[..i], p)|
      invariant successCount + failCount == i
    {
      requests := requests + [RequestFor(slots[i], user, ymd)];
      FilterAppend(responses[..i], [responses[i]], p);
      assert responses[..i + 1] == responses[..i] + [responses[i]];
      if BookingSucceeded(responses[i]) {
        successCount := successCount + 1;
      } else {
        failCount := failCount + 1;
      }
    }
    assert responses[..|slots|] == responses;
  }

  /** The requests of a confirmation: one per selected slot, in ascending
      hour order. */
  lemma RequestsInHourOrder(selection: seq<Slot>, user: User, ymd: string)
    ensures var sorted := SortedSlots(selection);
            && multiset(sorted) == multiset(selection)
            && forall i, j :: 0 <= i < j < |sorted| ==>
                 RequestFor(sorted[i], user, ymd).hour <= RequestFor(sorted[j], user, ymd).hour
  {
    SortedSlotsCorrect(selection);
  }
}
