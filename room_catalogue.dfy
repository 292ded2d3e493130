/** The room catalogue the page derives from the facility list
    (src/app/page.tsx:117-174) and the floor/capacity display filter
    (src/app/page.tsx:480-485). */
module RoomCatalogue {
  import opened Optional
  import opened JsText
  import opened SeqUtils
  import opened Domain

  /** A facility record as listed by the API: `ROOM_ID` and `FAC_NM`. */
  datatype Facility = Facility(roomId: string, facName: string)

  // ---------------------------------------------------------------------------
  // Room number: the match of /\((\d+)\)$/

  /** `d` is the digit group of a "(digits)" that ends `s`. */
  predicate IsTrailingGroup(s: string, d: string) {
    && |d| > 0 && AllDigits(d) && |s| >= |d| + 2
    && s[|s| - 1] == ')'
    && s[|s| - 1 - |d|..|s| - 1] == d
    && s[|s| - 2 - |d|] == '('
  }

  /** The number of decimal digits at the end of `s`. */
  function TrailingDigitCount(s: string): (k: nat)
    ensures k <= |s| && AllDigits(s[|s| - k..])
    ensures k < |s| ==> !IsDigit(s[|s| - k - 1])
  {
    if s == [] || !IsDigit(s[|s| - 1]) then 0
    else
      var pre := s[..|s| - 1];
      var k' := TrailingDigitCount(pre);
      TrailingDigitsStep(s, k');
      k' + 1
  }

  /** The last `k + 1` characters are digits when the last `k` of all but
      the last character are and the last one is. */
  lemma TrailingDigitsStep(s: string, k: nat)
    requires |s| > 0 && IsDigit(s[|s| - 1])
    requires k <= |s| - 1 && AllDigits(s[..|s| - 1][|s| - 1 - k..])
    requires k < |s| - 1 ==> !IsDigit(s[..|s| - 1][|s| - 1 - k - 1])
    ensures AllDigits(s[|s| - (k + 1)..])
    ensures k + 1 < |s| ==> !IsDigit(s[|s| - (k + 1) - 1])
  {
    var pre := s[..|s| - 1];
    var tail := s[|s| - (k + 1)..];
    forall i | 0 <= i < k + 1 ensures IsDigit(tail[i]) {
      if i < k {
        assert tail[i] == pre[|pre| - k..][i];
      }
    }
  }

  /** The digit group of a trailing "(digits)", if the name has one. */
  function TrailingDigits(s: string): Option<string> {
    if s == [] || s[|s| - 1] != ')' then None
    else
      var body := s[..|s| - 1];
      var k := TrailingDigitCount(body);
      if k == 0 || k == |body| || body[|body| - k - 1] != '(' then None
      else Some(body[|body| - k..])
  }

  lemma {:induction false} TrailingDigitCountOf(pre: string, d: string)
    requires AllDigits(d)
    requires pre == [] || !IsDigit(pre[|pre| - 1])
    ensures TrailingDigitCount(pre + d) == |d|
  {
    if d == [] {
      assert pre + d == pre;
    } else {
      assert (pre + d)[..|pre + d| - 1] == pre + d[..|d| - 1];
      TrailingDigitCountOf(pre, d[..|d| - 1]);
    }
  }

  /** What TrailingDigits finds is a trailing "(digits)" group. */
  lemma TrailingDigitsSound(s: string)
    ensures TrailingDigits(s).Some? ==> IsTrailingGroup(s, TrailingDigits(s).value)
  {
  }

  /** A trailing "(digits)" group is always found, and it is unique. */
  lemma TrailingDigitsComplete(s: string, d: string)
    requires IsTrailingGroup(s, d)
    ensures TrailingDigits(s) == Some(d)
  {
    var body := s[..|s| - 1];
    var pre := body[..|body| - |d|];
    assert body == pre + d;
    TrailingDigitCountOf(pre, d);
  }

  /** `parseInt(match[1])`, or 0 when the name has no trailing "(digits)". */
  function RoomNumber(name: string): nat {
    match TrailingDigits(name)
    case Some(d) => DigitsValue(d)
    case None => 0
  }

  /** The first of "2F", "3F", "4F" the name contains; "1F" otherwise. */
  function FloorOf(name: string): string {
    if Contains(name, "2F") then "2F"
    else if Contains(name, "3F") then "3F"
    else if Contains(name, "4F") then "4F"
    else "1F"
  }

  /** The room a facility record becomes before the exclusions. */
  function Classify(f: Facility): (r: Room)
    ensures r.id == f.roomId && r.originalName == f.facName
    ensures r.roomNum == RoomNumber(f.facName) && r.floor == FloorOf(f.facName)
  {
    var n := RoomNumber(f.facName);
    var floor := FloorOf(f.facName);
    var group := Room(f.roomId, "Group Study Room, " + NatToString(n), 6, Group, floor,
                      ["Screen", "Whiteboard"], f.facName, n);
    if floor == "2F" && 219 <= n <= 236 then
      group.(name := "Small-sized Carrels, " + NatToString(n), capacity := 1, kind := Personal, equipment := [])
    else if floor == "2F" && 205 <= n <= 210 then
      group.(capacity := 5, equipment := ["Whiteboard"])
    else if floor == "2F" && 202 <= n <= 204 then
      group.(capacity := 8, equipment := ["Whiteboard", "LED TV"])
    else if floor == "3F" && 302 <= n <= 307 then
      group.(capacity := 10, equipment := ["Whiteboard", "LED TV"])
    else group
  }

  /** The room number is the value of the trailing "(digits)", else 0. */
  lemma ClassifyRoomNumber(f: Facility, d: string)
    ensures IsTrailingGroup(f.facName, d) ==> Classify(f).roomNum == DigitsValue(d)
    ensures TrailingDigits(f.facName) == None ==> Classify(f).roomNum == 0
  {
    if IsTrailingGroup(f.facName, d) {
      TrailingDigitsComplete(f.facName, d);
    }
  }

  /** The floor is the first of 2F, 3F, 4F the name contains, else 1F. */
  lemma ClassifyFloor(f: Facility)
    ensures Classify(f).floor == "2F" <==> Contains(f.facName, "2F")
    ensures Classify(f).floor == "3F" <==> !Contains(f.facName, "2F") && Contains(f.facName, "3F")
    ensures Classify(f).floor == "4F" <==> !Contains(f.facName, "2F") && !Contains(f.facName, "3F") && Contains(f.facName, "4F")
    ensures Classify(f).floor == "1F" <==> !Contains(f.facName, "2F") && !Contains(f.facName, "3F") && !Contains(f.facName, "4F")
  {
  }

  /** The per-floor, per-number table of capacities, equipment and kinds. */
  lemma ClassifyTable(f: Facility)
    ensures var r := Classify(f);
      && (r.floor == "2F" && 219 <= r.roomNum <= 236 ==>
            r.capacity == 1 && r.kind == Personal && r.equipment == []
            && r.name == "Small-sized Carrels, " + NatToString(r.roomNum))
      && (r.floor == "2F" && 205 <= r.roomNum <= 210 ==> r.capacity == 5 && r.equipment == ["Whiteboard"])
      && (r.floor == "2F" && 202 <= r.roomNum <= 204 ==> r.capacity == 8 && r.equipment == ["Whiteboard", "LED TV"])
      && (r.floor == "3F" && 302 <= r.roomNum <= 307 ==> r.capacity == 10 && r.equipment == ["Whiteboard", "LED TV"])
      && (!(r.floor == "2F" && (202 <= r.roomNum <= 204 || 205 <= r.roomNum <= 210 || 219 <= r.roomNum <= 236))
          && !(r.floor == "3F" && 302 <= r.roomNum <= 307) ==>
            r.capacity == 6 && r.equipment == ["Screen", "Whiteboard"])
      && (r.kind != Personal ==> r.kind == Group && r.name == "Group Study Room, " + NatToString(r.roomNum))
  {
  }

  /** Personal carrels are exactly the rooms for one person, and exactly the
      rooms without equipment; every capacity is one of 1, 5, 6, 8, 10. */
  lemma ClassifyKindConsistent(f: Facility)
    ensures var r := Classify(f);
      && (r.kind == Personal <==> r.capacity == 1)
      && (r.kind == Personal <==> r.equipment == [])
      && r.capacity in {1, 5, 6, 8, 10}
  {
  }

  // ---------------------------------------------------------------------------
  // Exclusions

  /** The exclusion filter of the derivation. */
  predicate Kept(r: Room) {
    && r.floor != "1F"
    && r.floor != "4F"
    && !(r.floor == "2F" && 237 <= r.roomNum <= 240)
    && !Contains(r.originalName, "Lecture Room(for 30 people)")
    && !Contains(r.originalName, "Room 310")
  }

  /** The page's room list: every facility classified, then the exclusions. */
  function DeriveRooms(fs: seq<Facility>): (rooms: seq<Room>) {
    Filter(seq(|fs|, i requires 0 <= i < |fs| => Classify(fs[i])), Kept)
  }

  /** No kept room is on 1F or 4F, numbered 237-240 on 2F, or named a lecture
      room or Room 310. */
  lemma DeriveRoomsExclusions(fs: seq<Facility>)
    ensures forall r :: r in DeriveRooms(fs) ==>
      && (r.floor == "2F" || r.floor == "3F")
      && !(r.floor == "2F" && 237 <= r.roomNum <= 240)
      && !Contains(r.originalName, "Lecture Room(for 30 people)")
      && !Contains(r.originalName, "Room 310")
  {
    var all := seq(|fs|, i requires 0 <= i < |fs| => Classify(fs[i]));
    FilterMembers(all, Kept);
    forall r | r in DeriveRooms(fs)
      ensures Kept(r) && (r.floor == "2F" || r.floor == "3F")
    {
      var i :| 0 <= i < |DeriveRooms(fs)| && DeriveRooms(fs)[i] == r;
      var j :| 0 <= j < |all| && all[j] == r;
      KeptFloor(r);
    }
  }

  /** Of the four floors a name can give, the exclusions keep two. */
  lemma KeptFloor(r: Room)
    requires Kept(r) && r.floor == FloorOf(r.originalName)
    ensures r.floor == "2F" || r.floor == "3F"
  {
  }

  /** A room is listed iff it is the classification of some facility and
      survives the exclusions. */
  lemma DeriveRoomsMembers(fs: seq<Facility>, r: Room)
    ensures r in DeriveRooms(fs) <==> Kept(r) && exists i :: 0 <= i < |fs| && Classify(fs[i]) == r
  {
    FilterMembers(seq(|fs|, i requires 0 <= i < |fs| => Classify(fs[i])), Kept);
    var all := seq(|fs|, i requires 0 <= i < |fs| => Classify(fs[i]));
    if Kept(r) && exists i :: 0 <= i < |fs| && Classify(fs[i]) == r {
      var i :| 0 <= i < |fs| && Classify(fs[i]) == r;
      assert all[i] == r;
    }
  }

  /** Derivation works facility by facility, so surviving rooms keep the
      order of their facilities. */
  lemma DeriveRoomsAppend(a: seq<Facility>, b: seq<Facility>)
    ensures DeriveRooms(a + b) == DeriveRooms(a) + DeriveRooms(b)
  {
    var ca := seq(|a|, i requires 0 <= i < |a| => Classify(a[i]));
    var cb := seq(|b|, i requires 0 <= i < |b| => Classify(b[i]));
    assert seq(|a + b|, i requires 0 <= i < |a + b| => Classify((a + b)[i])) == ca + cb;
    FilterAppend(ca, cb, Kept);
  }

  // ---------------------------------------------------------------------------
  // Display filter

  /** The display filter's test, clause by clause as written. */
  predicate ShownByFilter(r: Room, selectedFloor: string, minCapacity: int) {
    && !(selectedFloor != "All" && r.floor != selectedFloor)
    && !(minCapacity > 0 && r.capacity != minCapacity)
    && !(minCapacity > 0 && r.capacity < minCapacity)
  }

  /** filteredRooms. */
  function FilterRooms(rooms: seq<Room>, selectedFloor: string, minCapacity: int): seq<Room> {
    Filter(rooms, r => ShownByFilter(r, selectedFloor, minCapacity))
  }

  /** A room is shown iff it is on the selected floor (or "All" is selected)
      and, when a capacity is selected, has exactly that capacity; the shown
      rooms keep their order. */
  lemma FilterRoomsMembers(rooms: seq<Room>, selectedFloor: string, minCapacity: int)
    ensures forall i :: 0 <= i < |rooms| && (selectedFloor == "All" || rooms[i].floor == selectedFloor)
                        && (minCapacity <= 0 || rooms[i].capacity == minCapacity)
                        ==> rooms[i] in FilterRooms(rooms, selectedFloor, minCapacity)
    ensures forall r :: r in FilterRooms(rooms, selectedFloor, minCapacity) ==>
        r in rooms
        && (selectedFloor == "All" || r.floor == selectedFloor)
        && (minCapacity <= 0 || r.capacity == minCapacity)
  {
    FilterMembers(rooms, r => ShownByFilter(r, selectedFloor, minCapacity));
  }

  lemma FilterRoomsAppend(a: seq<Room>, b: seq<Room>, selectedFloor: string, minCapacity: int)
    ensures FilterRooms(a + b, selectedFloor, minCapacity)
         == FilterRooms(a, selectedFloor, minCapacity) + FilterRooms(b, selectedFloor, minCapacity)
  {
    FilterAppend(a, b, r => ShownByFilter(r, selectedFloor, minCapacity));
  }
}
