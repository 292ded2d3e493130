/** Reconciliation of the availability grid (src/app/page.tsx:181-304): every
    room's `roomOther` and `room` lists become one-hour reservations, the lists
    are flattened, and the user's own reservations are overlaid on them. */
module GridReconciler {
  import opened Optional
  import opened JsText
  import opened SeqUtils
  import opened JsValues
  import opened Domain

  /** One hour record of a room's `roomOther` or `room` list: `RES_HOUR`
      (`None` when undefined or null) and `RES_ID` (`None` when missing). */
  datatype HourRecord = HourRecord(hour: Option<int>, resId: Option<string>)

  /** What `getRoom` gave for one room: `Failed` when the call threw;
      otherwise its `roomOther` and `room` lists, `None` when a list is
      missing or not an array. */
  datatype RoomFetch =
    | Failed
    | Fetched(roomOther: Option<seq<HourRecord>>, room: Option<seq<HourRecord>>)

  /** A reservation of the user as `getMyReservation` lists it: `ROOM_ID`,
      `RES_HOUR`, `RES_YYYYMMDD` (`None` when missing) and `RES_ID`. */
  datatype OwnRecord = OwnRecord(roomId: string, hour: Option<int>, ymd: Option<string>, resId: string)

  /** Owner tag of entries taken from `roomOther`. */
  const OtherTag := "other"
  /** Owner tag of entries taken from `room`. */
  const MeTag := "me"

  // ---------------------------------------------------------------------------
  // Per-room synthesis

  predicate HasHour(rec: HourRecord) {
    rec.hour.Some?
  }

  /** `${room.id}-${dateStr}-${RES_HOUR}`. */
  function GeneratedId(roomId: string, dateStr: string, h: int): string {
    roomId + "-" + dateStr + "-" + IntToString(h)
  }

  /** The reservation an hour record becomes. Entries from `room` keep a
      non-empty `RES_ID` as their id; all others get the generated id. */
  function EntryFor(roomId: string, dateStr: string, rec: HourRecord, owner: string, keepResId: bool): Reservation
    requires HasHour(rec)
  {
    var h := rec.hour.value;
    var id := if keepResId && rec.resId.Some? && rec.resId.value != "" then rec.resId.value
              else GeneratedId(roomId, dateStr, h);
    Reservation(id, roomId, owner, HourTime(h), HourTime(h + 1), DashedFromCompact(dateStr), Confirmed)
  }

  /** The `forEach` over one list, record by record: a record without an hour
      is skipped. */
  function SynthList(roomId: string, dateStr: string, recs: seq<HourRecord>, owner: string, keepResId: bool): seq<Reservation>
  {
    if recs == [] then []
    else
      var last := recs[|recs| - 1];
      SynthList(roomId, dateStr, recs[..|recs| - 1], owner, keepResId)
        + (if HasHour(last) then [EntryFor(roomId, dateStr, last, owner, keepResId)] else [])
  }

  /** The entries of one room: those of `roomOther`, then those of `room`. */
  function RoomEntries(roomId: string, dateStr: string, fetch: RoomFetch): seq<Reservation> {
    match fetch
    case Failed => []
    case Fetched(other, mine) =>
      (if other.Some? then SynthList(roomId, dateStr, other.value, OtherTag, false) else [])
      + (if mine.Some? then SynthList(roomId, dateStr, mine.value, MeTag, true) else [])
  }

  /** The records with a defined hour, in order. */
  function DefinedRecords(recs: seq<HourRecord>): (r: seq<HourRecord>)
    ensures |r| <= |recs| && forall i :: 0 <= i < |r| ==> HasHour(r[i])
  {
    FilterMembers(recs, HasHour);
    Filter(recs, HasHour)
  }

  /** Exactly one reservation per record with a defined hour, in the order of
      the records; records without an hour are dropped. */
  lemma {:induction false} SynthListPerRecord(roomId: string, dateStr: string, recs: seq<HourRecord>, owner: string, keepResId: bool)
    ensures var defined := DefinedRecords(recs);
      && |SynthList(roomId, dateStr, recs, owner, keepResId)| == |defined|
      && forall k :: 0 <= k < |defined| ==>
           SynthList(roomId, dateStr, recs, owner, keepResId)[k] == EntryFor(roomId, dateStr, defined[k], owner, keepResId)
  {
    if recs != [] {
      var init, last := recs[..|recs| - 1], recs[|recs| - 1];
      assert recs == init + [last];
      FilterAppend(init, [last], HasHour);
      SynthListPerRecord(roomId, dateStr, init, owner, keepResId);
    }
  }

  /** Every synthesized entry is a one-hour slot of that room on that day,
      owned by the list's tag, with a start time parseInt reads as its hour. */
  lemma EntryForShape(roomId: string, dateStr: string, rec: HourRecord, owner: string, keepResId: bool)
    requires HasHour(rec)
    ensures var e := EntryFor(roomId, dateStr, rec, owner, keepResId);
      && e.roomId == roomId && e.userId == owner && e.status == Confirmed
      && e.startTime == Pad2(rec.hour.value) + ":00" && e.endTime == Pad2(rec.hour.value + 1) + ":00"
      && ParseInt(e.startTime) == Some(rec.hour.value)
      && (|dateStr| == 8 && AllDigits(dateStr) ==> StripDashes(e.date) == dateStr)
  {
    ParseHourTime(rec.hour.value);
    if |dateStr| == 8 && AllDigits(dateStr) {
      StripDashedFromCompact(dateStr);
    }
  }

  /** One list's `forEach`: push an entry for every record with an hour. */
  method ListReservations(roomId: string, dateStr: string, recs: seq<HourRecord>, owner: string, keepResId: bool)
    returns (out: seq<Reservation>)
    ensures out == SynthList(roomId, dateStr, recs, owner, keepResId)
  {
    out := [];
    for i := 0 to |recs|
      invariant out == SynthList(roomId, dateStr, recs[..i], owner, keepResId)
    {
      assert recs[..i + 1][..i] == recs[..i];
      if recs[i].hour.None? {
        continue;
      }
      out := out + [EntryFor(roomId, dateStr, recs[i], owner, keepResId)];
    }
    assert recs[..|recs|] == recs;
  }

  /** A room's two `forEach` loops, `roomOther` first. */
  method RoomReservations(roomId: string, dateStr: string, fetch: RoomFetch) returns (out: seq<Reservation>)
    ensures out == RoomEntries(roomId, dateStr, fetch)
  {
    out := [];
    if fetch.Failed? {
      return;
    }
    if fetch.roomOther.Some? {
      out := ListReservations(roomId, dateStr, fetch.roomOther.value, OtherTag, false);
    }
    if fetch.room.Some? {
      var mine := ListReservations(roomId, dateStr, fetch.room.value, MeTag, true);
      out := out + mine;
    }
  }

  /** The per-room lists of all rooms, flattened (`Promise.all` then `flat`). */
  function AllRoomEntries(roomIds: seq<string>, dateStr: string, fetches: seq<RoomFetch>): seq<Reservation>
    requires |fetches| == |roomIds|
  {
    Flatten(seq(|roomIds|, i requires 0 <= i < |roomIds| => RoomEntries(roomIds[i], dateStr, fetches[i])))
  }

  method CollectReservations(roomIds: seq<string>, dateStr: string, fetches: seq<RoomFetch>) returns (all: seq<Reservation>)
    requires |fetches| == |roomIds|
    ensures all == AllRoomEntries(roomIds, dateStr, fetches)
  {
    ghost var per := seq(|roomIds|, i requires 0 <= i < |roomIds| => RoomEntries(roomIds[i], dateStr, fetches[i]));
    all := [];
    for i := 0 to |roomIds|
      invariant all == Flatten(per[..i])
    {
      var entries := RoomReservations(roomIds[i], dateStr, fetches[i]);
      assert per[..i + 1][..i] == per[..i];
      all := all + entries;
    }
    assert per[..|roomIds|] == per;
  }

  // ---------------------------------------------------------------------------
  // Overlay of the user's own reservations

  /** The `find` test: same room, start time parsing to the record's hour, and
      date equal to the record's once its dashes are removed. */
  predicate Matches(r: Reservation, my: OwnRecord) {
    && r.roomId == my.roomId
    && my.hour.Some? && ParseInt(r.startTime) == Some(my.hour.value)
    && my.ymd.Some? && StripDashes(r.date) == my.ymd.value
  }

  /** The `find` over the grid: index of the first entry matching the record. */
  function FirstMatch(all: seq<Reservation>, my: OwnRecord): Option<nat> {
    FindFirst(all, r => Matches(r, my))
  }

  /** The entry appended for an own reservation nothing matched. */
  function OwnEntry(my: OwnRecord, userId: string): Reservation
    requires my.hour.Some? && my.ymd.Some?
  {
    Reservation(my.resId, my.roomId, userId, HourTime(my.hour.value), HourTime(my.hour.value + 1),
                DashedFromCompact(my.ymd.value), Confirmed)
  }

  /** A grid entry taken over by an own reservation: its owner and id. */
  function Relabel(r: Reservation, my: OwnRecord, userId: string): Reservation {
    r.(userId := userId, id := my.resId)
  }

  /** One iteration of the overlay: relabel the first match in place, or
      append a new entry; `None` when appending throws because the record has
      no hour or no date. */
  function MergeStep(all: seq<Reservation>, my: OwnRecord, userId: string): Option<seq<Reservation>> {
    match FirstMatch(all, my)
    case Some(k) => Some(all[k := Relabel(all[k], my, userId)])
    case None =>
      if my.hour.Some? && my.ymd.Some? then Some(all + [OwnEntry(my, userId)]) else None
  }

  /** The whole overlay, record by record; `None` once a step throws. */
  function MergeAll(all: seq<Reservation>, mine: seq<OwnRecord>, userId: string): Option<seq<Reservation>> {
    if mine == [] then Some(all)
    else
      match MergeAll(all, mine[..|mine| - 1], userId)
      case None => None
      case Some(cur) => MergeStep(cur, mine[|mine| - 1], userId)
  }

  /** The overlay's `forEach`. */
  method MergeOwn(all: seq<Reservation>, mine: seq<OwnRecord>, userId: string) returns (merged: Option<seq<Reservation>>)
    ensures merged == MergeAll(all, mine, userId)
  {
    var cur := all;
    for i := 0 to |mine|
      invariant MergeAll(all, mine[..i], userId) == Some(cur)
    {
      var myR := mine[i];
      MergeAllPrefix(all, mine, i, userId, cur);
      var k := FirstMatch(cur, myR);
      MergeStepCases(cur, myR, userId);
      if k.Some? {
        cur := cur[k.value := Relabel(cur[k.value], myR, userId)];
      } else if myR.hour.Some? && myR.ymd.Some? {
        cur := cur + [OwnEntry(myR, userId)];
      } else {
        // `RES_HOUR.toString()` or `RES_YYYYMMDD.substring` on undefined throws
        MergeAllThrowsAt(all, mine, i, userId);
        return None;
      }
    }
    assert mine[..|mine|] == mine;
    merged := Some(cur);
  }

  /** A step that throws ends the whole overlay with nothing. */
  lemma MergeAllThrowsAt(all: seq<Reservation>, mine: seq<OwnRecord>, i: nat, userId: string)
    requires i < |mine| && MergeAll(all, mine[..i + 1], userId) == None
    ensures MergeAll(all, mine, userId) == None
  {
    MergeAllThrowsOn(all, mine[..i + 1], mine[i + 1..], userId);
    assert mine[..i + 1] + mine[i + 1..] == mine;
  }

  lemma MergeStepCases(cur: seq<Reservation>, my: OwnRecord, userId: string)
    ensures var k := FirstMatch(cur, my);
            k.Some? ==> k.value < |cur| && MergeStep(cur, my, userId) == Some(cur[k.value := Relabel(cur[k.value], my, userId)])
    ensures var k := FirstMatch(cur, my);
            k.None? ==> MergeStep(cur, my, userId) == if my.hour.Some? && my.ymd.Some? then Some(cur + [OwnEntry(my, userId)]) else None
  {
  }

  /** One more record of the overlay is one more step. */
  lemma MergeAllPrefix(all: seq<Reservation>, mine: seq<OwnRecord>, i: nat, userId: string, cur: seq<Reservation>)
    requires i < |mine| && MergeAll(all, mine[..i], userId) == Some(cur)
    ensures MergeAll(all, mine[..i + 1], userId) == MergeStep(cur, mine[i], userId)
  {
    assert mine[..i + 1][..i] == mine[..i];
  }

  lemma {:induction false} MergeAllThrowsOn(all: seq<Reservation>, done: seq<OwnRecord>, rest: seq<OwnRecord>, userId: string)
    requires MergeAll(all, done, userId) == None
    ensures MergeAll(all, done + rest, userId) == None
    decreases |rest|
  {
    if rest != [] {
      var init := done + rest[..|rest| - 1];
      MergeAllThrowsOn(all, done, rest[..|rest| - 1], userId);
      assert (done + rest)[..|done + rest| - 1] == init;
    } else {
      assert done + rest == done;
    }
  }

  /** Same room, times, date and status: the entry describes the same slot. */
  predicate SameSlot(a: Reservation, b: Reservation) {
    a.roomId == b.roomId && a.startTime == b.startTime && a.endTime == b.endTime
    && a.date == b.date && a.status == b.status
  }

  /** A matched step relabels exactly the first matching entry (its owner and
      id) and leaves every other entry, later matches included, untouched. */
  lemma MergeStepRelabelsFirstOnly(all: seq<Reservation>, my: OwnRecord, userId: string, k: nat)
    requires k < |all| && Matches(all[k], my)
    requires forall j :: 0 <= j < k ==> !Matches(all[j], my)
    ensures MergeStep(all, my, userId).Some?
    ensures var m := MergeStep(all, my, userId).value;
      && |m| == |all|
      && m[k] == all[k].(userId := userId, id := my.resId)
      && forall j :: 0 <= j < |all| && j != k ==> m[j] == all[j]
  {
    FindFirstIs(all, r => Matches(r, my), k);
  }

  /** An unmatched step appends one entry for the record, owned by the user,
      which the same record would now match when its date has eight digits. */
  lemma MergeStepAppends(all: seq<Reservation>, my: OwnRecord, userId: string)
    requires forall j :: 0 <= j < |all| ==> !Matches(all[j], my)
    requires my.hour.Some? && my.ymd.Some?
    ensures MergeStep(all, my, userId) == Some(all + [OwnEntry(my, userId)])
    ensures OwnEntry(my, userId).userId == userId && OwnEntry(my, userId).roomId == my.roomId
    ensures |my.ymd.value| == 8 && AllDigits(my.ymd.value) ==> Matches(OwnEntry(my, userId), my)
  {
    ParseHourTime(my.hour.value);
    if |my.ymd.value| == 8 && AllDigits(my.ymd.value) {
      StripDashedFromCompact(my.ymd.value);
    }
  }

  /** Records the overlay can always append: an hour and an eight-digit date. */
  predicate WellFormedOwn(my: OwnRecord) {
    my.hour.Some? && my.ymd.Some? && |my.ymd.value| == 8 && AllDigits(my.ymd.value)
  }

  /** The overlay never removes or moves an entry: every original entry keeps
      its slot and is either unchanged or relabelled to the user; entries no
      own record matches are unchanged; whatever is added is the user's; at
      most one entry is added per own record. */
  lemma {:induction false} MergeAllKeepsEntries(all: seq<Reservation>, mine: seq<OwnRecord>, userId: string)
    requires MergeAll(all, mine, userId).Some?
    ensures var m := MergeAll(all, mine, userId).value;
      && |all| <= |m| <= |all| + |mine|
      && (forall i :: 0 <= i < |all| ==> SameSlot(m[i], all[i]) && (m[i] == all[i] || m[i].userId == userId))
      && (forall i :: 0 <= i < |all| && (forall j :: 0 <= j < |mine| ==> !Matches(all[i], mine[j])) ==> m[i] == all[i])
      && (forall i :: |all| <= i < |m| ==> m[i].userId == userId)
  {
    if mine != [] {
      var init := mine[..|mine| - 1];
      var my := mine[|mine| - 1];
      MergeAllKeepsEntries(all, init, userId);
      var cur := MergeAll(all, init, userId).value;
      var m := MergeAll(all, mine, userId).value;
      assert MergeStep(cur, my, userId) == Some(m);
      forall i | 0 <= i < |all| && (forall j :: 0 <= j < |mine| ==> !Matches(all[i], mine[j]))
        ensures m[i] == all[i]
      {
        assert forall j :: 0 <= j < |init| ==> init[j] == mine[j];
        assert cur[i] == all[i];
        assert !Matches(cur[i], my);
      }
    }
  }

  /** Relabelling keeps what `find` compares, so an entry matches a record
      after the step iff it did before. */
  lemma {:induction false} MergeStepKeepsMatches(cur: seq<Reservation>, my: OwnRecord, userId: string, other: OwnRecord)
    requires MergeStep(cur, my, userId).Some?
    ensures var m := MergeStep(cur, my, userId).value;
      |cur| <= |m| && forall i :: 0 <= i < |cur| ==> (Matches(m[i], other) <==> Matches(cur[i], other))
  {
  }

  /** An entry owned by the user that matches a record keeps doing so. */
  lemma MergeStepKeepsOwned(cur: seq<Reservation>, my: OwnRecord, userId: string, other: OwnRecord, k: nat)
    requires MergeStep(cur, my, userId).Some?
    requires k < |cur| && Matches(cur[k], other) && cur[k].userId == userId
    ensures var m := MergeStep(cur, my, userId).value;
      k < |m| && Matches(m[k], other) && m[k].userId == userId
  {
    MergeStepKeepsMatches(cur, my, userId, other);
  }

  /** After its own step, a well-formed record is matched by an entry of the user. */
  lemma MergeStepOwnsRecord(cur: seq<Reservation>, my: OwnRecord, userId: string)
    requires WellFormedOwn(my)
    ensures MergeStep(cur, my, userId).Some?
    ensures var m := MergeStep(cur, my, userId).value;
      exists k :: 0 <= k < |m| && Matches(m[k], my) && m[k].userId == userId
  {
    var fm := FirstMatch(cur, my);
    if fm.Some? {
      MergeStepRelabelsFirstOnly(cur, my, userId, fm.value);
      var m := MergeStep(cur, my, userId).value;
      assert Matches(m[fm.value], my) && m[fm.value].userId == userId;
    } else {
      MergeStepAppends(cur, my, userId);
      var m := MergeStep(cur, my, userId).value;
      assert Matches(m[|cur|], my) && m[|cur|].userId == userId;
    }
  }

  /** Every own reservation ends up in the grid as the user's: some entry
      matches it and is owned by the user. */
  lemma {:induction false} MergeAllOwnsEveryRecord(all: seq<Reservation>, mine: seq<OwnRecord>, userId: string)
    requires forall j :: 0 <= j < |mine| ==> WellFormedOwn(mine[j])
    ensures MergeAll(all, mine, userId).Some?
    ensures var m := MergeAll(all, mine, userId).value;
      forall j :: 0 <= j < |mine| ==> exists k :: 0 <= k < |m| && Matches(m[k], mine[j]) && m[k].userId == userId
  {
    if mine != [] {
      var init := mine[..|mine| - 1];
      var my := mine[|mine| - 1];
      MergeAllOwnsEveryRecord(all, init, userId);
      var cur := MergeAll(all, init, userId).value;
      MergeStepOwnsRecord(cur, my, userId);
      var m := MergeAll(all, mine, userId).value;
      assert MergeStep(cur, my, userId) == Some(m);
      forall j | 0 <= j < |mine| - 1
        ensures exists k :: 0 <= k < |m| && Matches(m[k], mine[j]) && m[k].userId == userId
      {
        assert init[j] == mine[j];
        var k :| 0 <= k < |cur| && Matches(cur[k], init[j]) && cur[k].userId == userId;
        MergeStepKeepsOwned(cur, my, userId, init[j], k);
      }
    }
  }

  /** When every own reservation matches an entry already in the grid, the
      overlay only relabels: the length does not change. */
  lemma {:induction false} MergeAllAllMatched(all: seq<Reservation>, mine: seq<OwnRecord>, userId: string)
    requires forall j :: 0 <= j < |mine| ==> exists i :: 0 <= i < |all| && Matches(all[i], mine[j])
    ensures MergeAll(all, mine, userId).Some?
    ensures |MergeAll(all, mine, userId).value| == |all|
    ensures forall i :: 0 <= i < |all| ==> SameSlot(MergeAll(all, mine, userId).value[i], all[i])
  {
    if mine != [] {
      var init := mine[..|mine| - 1];
      var my := mine[|mine| - 1];
      assert forall j :: 0 <= j < |init| ==> init[j] == mine[j];
      MergeAllAllMatched(all, init, userId);
      var cur := MergeAll(all, init, userId).value;
      var i :| 0 <= i < |all| && Matches(all[i], my);
      assert Matches(cur[i], my);
      var fm := FirstMatch(cur, my);
      MergeStepRelabelsFirstOnly(cur, my, userId, fm.value);
    }
  }

  /** Two entries of one slot (say a synthesized "other" one and a "me" one)
      stay two after the overlay: only the first is relabelled. */
  lemma MergeStepDoesNotDeduplicate(all: seq<Reservation>, my: OwnRecord, userId: string, i: nat, j: nat)
    requires i < j < |all| && Matches(all[i], my) && Matches(all[j], my)
    requires forall k :: 0 <= k < i ==> !Matches(all[k], my)
    ensures MergeStep(all, my, userId).Some?
    ensures var m := MergeStep(all, my, userId).value;
      |m| == |all| && m[i].userId == userId && m[j] == all[j] && Matches(m[j], my)
  {
    MergeStepRelabelsFirstOnly(all, my, userId, i);
  }

  // ---------------------------------------------------------------------------
  // The whole reconciliation

  /** The grid for one fetch: the rooms' entries, overlaid with the user's
      reservations when someone is logged in; `None` when the overlay threw
      or the user's reservations could not be fetched. */
  function ReconcileSpec(roomIds: seq<string>, dateStr: string, fetches: seq<RoomFetch>,
                         user: Option<User>, myResponse: CallResult<Payload<OwnRecord>>): Option<seq<Reservation>>
    requires |fetches| == |roomIds|
  {
    var all := AllRoomEntries(roomIds, dateStr, fetches);
    if user.None? then Some(all)
    else if myResponse.Threw? then None
    else MergeAll(all, Probe(myResponse.value, PageShapes), user.value.userId)
  }

  method Reconcile(roomIds: seq<string>, dateStr: string, fetches: seq<RoomFetch>,
                   user: Option<User>, myResponse: CallResult<Payload<OwnRecord>>) returns (result: Option<seq<Reservation>>)
    requires |fetches| == |roomIds|
    ensures result == ReconcileSpec(roomIds, dateStr, fetches, user, myResponse)
  {
    var all := CollectReservations(roomIds, dateStr, fetches);
    if user.None? {
      return Some(all);
    }
    if myResponse.Threw? {
      return None;
    }
    var myResList := Probe(myResponse.value, PageShapes);
    result := MergeOwn(all, myResList, user.value.userId);
  }

  lemma {:induction false} SynthListStartTimes(roomId: string, dateStr: string, recs: seq<HourRecord>, owner: string, keepResId: bool)
    ensures HourStartTimes(SynthList(roomId, dateStr, recs, owner, keepResId))
  {
    if recs != [] {
      SynthListStartTimes(roomId, dateStr, recs[..|recs| - 1], owner, keepResId);
      var last := recs[|recs| - 1];
      if HasHour(last) {
        HourTimeIsHourTime(last.hour.value);
      }
    }
  }

  lemma {:induction false} FlattenStartTimes(ss: seq<seq<Reservation>>)
    requires forall i :: 0 <= i < |ss| ==> HourStartTimes(ss[i])
    ensures HourStartTimes(Flatten(ss))
  {
    if ss != [] {
      FlattenStartTimes(ss[..|ss| - 1]);
    }
  }

  lemma {:induction false} MergeAllStartTimes(all: seq<Reservation>, mine: seq<OwnRecord>, userId: string)
    requires HourStartTimes(all) && MergeAll(all, mine, userId).Some?
    ensures HourStartTimes(MergeAll(all, mine, userId).value)
  {
    if mine != [] {
      MergeAllStartTimes(all, mine[..|mine| - 1], userId);
      var my := mine[|mine| - 1];
      if my.hour.Some? {
        HourTimeIsHourTime(my.hour.value);
      }
    }
  }

  /** Every start time of a reconciled grid is the padded rendering of an
      hour, which parseInt reads back. */
  lemma ReconciledHourStartTimes(roomIds: seq<string>, dateStr: string, fetches: seq<RoomFetch>,
                                  user: Option<User>, myResponse: CallResult<Payload<OwnRecord>>)
    requires |fetches| == |roomIds|
    requires ReconcileSpec(roomIds, dateStr, fetches, user, myResponse).Some?
    ensures HourStartTimes(ReconcileSpec(roomIds, dateStr, fetches, user, myResponse).value)
  {
    var per := seq(|roomIds|, i requires 0 <= i < |roomIds| => RoomEntries(roomIds[i], dateStr, fetches[i]));
    forall i | 0 <= i < |per| ensures HourStartTimes(per[i]) {
      match fetches[i]
      case Failed =>
      case Fetched(other, mine) =>
        if other.Some? { SynthListStartTimes(roomIds[i], dateStr, other.value, OtherTag, false); }
        if mine.Some? { SynthListStartTimes(roomIds[i], dateStr, mine.value, MeTag, true); }
    }
    FlattenStartTimes(per);
    if user.Some? && myResponse.Returned? {
      MergeAllStartTimes(AllRoomEntries(roomIds, dateStr, fetches), Probe(myResponse.value, PageShapes), user.value.userId);
    }
  }
}
