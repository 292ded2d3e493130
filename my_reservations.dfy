/** The "My Reservations" list: the user's reservations of four monthly
    windows, normalised, sorted, restricted to today and later, grouped by
    date, and cancelled one by one or date group by date group. */
module MyReservations {
  import opened Optional
  import opened JsText
  import opened SeqUtils
  import opened JsValues
  import opened Domain
  import RoomCatalogue

  // ---------------------------------------------------------------------------
  // Records and key normalisation

  /** A record as the API lists it: its string-valued keys and its
      number-valued hour keys. A key that is absent or null is missing. */
  datatype RawRecord = RawRecord(text: map<string, string>, numbers: map<string, int>)

  /** A normalised record of the list. */
  datatype MyReservation = MyReservation(
    resId: string,
    roomId: Option<string>,
    ymd: Option<string>,     // yyyyMMdd
    hour: Option<int>,
    facName: string,
    status: string)

  function TextField(rec: RawRecord, key: string): Option<string> {
    if key in rec.text then Some(rec.text[key]) else None
  }

  function NumberField(rec: RawRecord, key: string): Option<int> {
    if key in rec.numbers then Some(rec.numbers[key]) else None
  }

  /** A string operand JavaScript's `||` keeps: present and non-empty. */
  predicate TruthyText(o: Option<string>) {
    o.Some? && o.value != ""
  }

  /** `a || b` on strings. */
  function Or(a: Option<string>, b: Option<string>): (r: Option<string>)
    ensures TruthyText(r) <==> TruthyText(a) || TruthyText(b)
    ensures r == a || r == b
  {
    if TruthyText(a) then a else b
  }

  /** `a ?? b`: the right operand only when the left one is missing. */
  function Nullish(a: Option<int>, b: Option<int>): (r: Option<int>)
    ensures r.Some? <==> a.Some? || b.Some?
    ensures r == a || r == b
  {
    if a.Some? then a else b
  }

  /** A missing key used as a property name or in a template is "undefined". */
  function KeyText(o: Option<string>): string {
    o.GetOr("undefined")
  }

  /** The temporary id of a record without one; the n-th record of the list
      gets "temp-n". */
  function TempId(index: nat): string {
    "temp-" + NatToString(index)
  }

  // Key normalisation: the upper-case key, then the snake-case one, then the
  // camel-case one. Strings fall back past empty values, the hour only past
  // missing ones.

  function NormalizedId(rec: RawRecord, index: nat): (id: string)
    ensures id != ""
  {
    Or(TextField(rec, "RES_ID"), Or(TextField(rec, "res_id"), Or(TextField(rec, "resId"), Some(TempId(index))))).GetOr("")
  }

  function NormalizedRoomId(rec: RawRecord): Option<string> {
    Or(TextField(rec, "ROOM_ID"), Or(TextField(rec, "room_id"), TextField(rec, "roomId")))
  }

  function NormalizedDate(rec: RawRecord): Option<string> {
    Or(TextField(rec, "RES_YYYYMMDD"), Or(TextField(rec, "res_yyyymmdd"), TextField(rec, "resYyyymmdd")))
  }

  function NormalizedHour(rec: RawRecord): Option<int> {
    Nullish(NumberField(rec, "RES_HOUR"), Nullish(NumberField(rec, "res_hour"), NumberField(rec, "resHour")))
  }

  /** The room name: the facility list's name for the room, then the
      record's own name, then "Room <id>". */
  function NormalizedName(rec: RawRecord, roomMap: map<string, string>, roomId: Option<string>): (name: string)
    ensures name != ""
  {
    var key := KeyText(roomId);
    var mapped := if key in roomMap then Some(roomMap[key]) else None;
    Or(mapped, Or(TextField(rec, "FAC_NM"), Or(TextField(rec, "fac_nm"),
       Or(TextField(rec, "facNm"), Some("Room " + key))))).GetOr("")
  }

  function NormalizedStatus(rec: RawRecord): (status: string)
    ensures status != ""
  {
    Or(TextField(rec, "RES_STATUS_NM"), Or(TextField(rec, "res_status_nm"),
       Or(TextField(rec, "resStatusNm"), Some("Unknown")))).GetOr("")
  }

  /** Key normalisation of one record. */
  function Normalize(rec: RawRecord, roomMap: map<string, string>, index: nat): (x: MyReservation)
    ensures x.resId != "" && x.facName != "" && x.status != ""
    ensures x.roomId == NormalizedRoomId(rec) && x.ymd == NormalizedDate(rec) && x.hour == NormalizedHour(rec)
  {
    var roomId := NormalizedRoomId(rec);
    MyReservation(NormalizedId(rec, index), roomId, NormalizedDate(rec), NormalizedHour(rec),
                  NormalizedName(rec, roomMap, roomId), NormalizedStatus(rec))
  }

  /** An hour of 0 survives normalisation (`??`), and a later alias is used
      only when the earlier ones are missing. */
  lemma NormalizeHour(rec: RawRecord)
    ensures "RES_HOUR" in rec.numbers ==> NormalizedHour(rec) == Some(rec.numbers["RES_HOUR"])
    ensures "RES_HOUR" !in rec.numbers && "res_hour" in rec.numbers ==>
              NormalizedHour(rec) == Some(rec.numbers["res_hour"])
    ensures NormalizedHour(rec).None? <==>
              "RES_HOUR" !in rec.numbers && "res_hour" !in rec.numbers && "resHour" !in rec.numbers
  {
  }

  /** The facility list's non-empty name wins; with no name anywhere the
      room is shown as "Room <id>". */
  lemma NormalizeRoomName(rec: RawRecord, roomMap: map<string, string>, roomId: Option<string>)
    ensures KeyText(roomId) in roomMap && roomMap[KeyText(roomId)] != "" ==>
              NormalizedName(rec, roomMap, roomId) == roomMap[KeyText(roomId)]
    ensures ((KeyText(roomId) !in roomMap || roomMap[KeyText(roomId)] == "")
             && !TruthyText(TextField(rec, "FAC_NM")) && !TruthyText(TextField(rec, "fac_nm"))
             && !TruthyText(TextField(rec, "facNm"))) ==>
              NormalizedName(rec, roomMap, roomId) == "Room " + KeyText(roomId)
  {
  }

  /** The status defaults to "Unknown" when no alias has a non-empty one. */
  lemma NormalizeStatus(rec: RawRecord)
    ensures TruthyText(TextField(rec, "RES_STATUS_NM")) ==> NormalizedStatus(rec) == rec.text["RES_STATUS_NM"]
    ensures (!TruthyText(TextField(rec, "RES_STATUS_NM")) && !TruthyText(TextField(rec, "res_status_nm"))
             && !TruthyText(TextField(rec, "resStatusNm"))) ==> NormalizedStatus(rec) == "Unknown"
  {
  }

  /** A record without a non-empty id under any alias gets a temporary one. */
  lemma NormalizeId(rec: RawRecord, index: nat)
    ensures TruthyText(TextField(rec, "RES_ID")) ==> NormalizedId(rec, index) == rec.text["RES_ID"]
    ensures (!TruthyText(TextField(rec, "RES_ID")) && !TruthyText(TextField(rec, "res_id"))
             && !TruthyText(TextField(rec, "resId"))) ==> NormalizedId(rec, index) == TempId(index)
  {
  }

  // ---------------------------------------------------------------------------
  // The room-name map and the monthly lists

  /** `roomMap[ROOM_ID] = FAC_NM` for each facility in turn. */
  function RoomMapOf(fs: seq<RoomCatalogue.Facility>): map<string, string> {
    if fs == [] then map[]
    else RoomMapOf(fs[..|fs| - 1])[fs[|fs| - 1].roomId := fs[|fs| - 1].facName]
  }

  /** The map holds every listed room, under the name of its last listing. */
  lemma {:induction false} RoomMapLastWins(fs: seq<RoomCatalogue.Facility>, id: string)
    ensures id in RoomMapOf(fs) <==> exists i :: 0 <= i < |fs| && fs[i].roomId == id
    ensures id in RoomMapOf(fs) ==>
              exists i :: 0 <= i < |fs| && fs[i].roomId == id && RoomMapOf(fs)[id] == fs[i].facName
                          && forall j :: i < j < |fs| ==> fs[j].roomId != id
  {
    if fs != [] {
      var init := fs[..|fs| - 1];
      RoomMapLastWins(init, id);
      if fs[|fs| - 1].roomId != id {
        if id in RoomMapOf(fs) {
          var i :| 0 <= i < |init| && init[i].roomId == id && RoomMapOf(init)[id] == init[i].facName
                   && forall j :: i < j < |init| ==> init[j].roomId != id;
          assert fs[i] == init[i];
        }
        forall i | 0 <= i < |init| && init[i].roomId == id ensures id in RoomMapOf(fs) {
        }
        assert forall i :: 0 <= i < |init| ==> fs[i] == init[i];
      }
    }
  }

  /** The facility call's loop; a failed or empty call leaves the map empty. */
  method BuildRoomMap(facilities: Option<seq<RoomCatalogue.Facility>>) returns (m: map<string, string>)
    ensures m == (if facilities.Some? then RoomMapOf(facilities.value) else map[])
  {
    m := map[];
    if facilities.None? {
      return;
    }
    var fs := facilities.value;
    for i := 0 to |fs|
      invariant m == RoomMapOf(fs[..i])
    {
      assert fs[..i + 1][..i] == fs[..i];
      m := m[fs[i].roomId := fs[i].facName];
    }
    assert fs[..|fs|] == fs;
  }

  /** One month's list: the first array among the envelope shapes; a call
      that throws gives an empty list. */
  function MonthList(response: CallResult<Payload<RawRecord>>): seq<RawRecord> {
    if response.Threw? then [] else Probe(response.value, ModalShapes)
  }

  /** The four months' records, normalised. */
  function NormalizedList(roomMap: map<string, string>, responses: seq<CallResult<Payload<RawRecord>>>): (xs: seq<MyReservation>)
    ensures var raw := Flatten(seq(|responses|, i requires 0 <= i < |responses| => MonthList(responses[i])));
            |xs| == |raw| && forall i :: 0 <= i < |raw| ==> xs[i] == Normalize(raw[i], roomMap, i)
  {
    var raw := Flatten(seq(|responses|, i requires 0 <= i < |responses| => MonthList(responses[i])));
    seq(|raw|, i requires 0 <= i < |raw| => Normalize(raw[i], roomMap, i))
  }

  // ---------------------------------------------------------------------------
  // Sorting: date descending, then hour ascending

  /** `RES_YYYYMMDD || ""`. */
  function DateText(x: MyReservation): string {
    x.ymd.GetOr("")
  }

  /** `RES_HOUR || 0`. */
  function HourOrZero(x: MyReservation): int {
    x.hour.GetOr(0)
  }

  /** The list's order: a later date first; on the same date, an earlier hour
      first. */
  predicate ListLe(a: MyReservation, b: MyReservation) {
    LexLess(DateText(b), DateText(a)) || (DateText(a) == DateText(b) && HourOrZero(a) <= HourOrZero(b))
  }

  lemma ListLeTotalPreorder()
    ensures TotalPreorder(ListLe)
  {
    forall a, b ensures ListLe(a, b) || ListLe(b, a) {
      LexLessTotal(DateText(a), DateText(b));
    }
    forall a, b, c | ListLe(a, b) && ListLe(b, c) ensures ListLe(a, c) {
      if LexLess(DateText(b), DateText(a)) && LexLess(DateText(c), DateText(b)) {
        LexLessTransitive(DateText(c), DateText(b), DateText(a));
      }
    }
  }

  function SortList(xs: seq<MyReservation>): (r: seq<MyReservation>)
    ensures |r| == |xs|
  {
    SortBy(xs, ListLe)
  }

  /** The sorted list is a permutation of the records; of two records with
      different dates the later comes first, and of two on the same date the
      earlier hour (a missing hour counting as 0). */
  lemma SortListCorrect(xs: seq<MyReservation>)
    ensures multiset(SortList(xs)) == multiset(xs)
    ensures var s := SortList(xs);
            forall i, j :: 0 <= i < j < |s| ==>
              (DateText(s[i]) != DateText(s[j]) ==> LexLess(DateText(s[j]), DateText(s[i])))
              && (DateText(s[i]) == DateText(s[j]) ==> HourOrZero(s[i]) <= HourOrZero(s[j]))
  {
    ListLeTotalPreorder();
    SortByCorrect(xs, ListLe);
    var s := SortList(xs);
    forall i, j | 0 <= i < j < |s|
      ensures DateText(s[i]) != DateText(s[j]) ==> LexLess(DateText(s[j]), DateText(s[i]))
      ensures DateText(s[i]) == DateText(s[j]) ==> HourOrZero(s[i]) <= HourOrZero(s[j])
    {
      assert ListLe(s[i], s[j]);
      LexLessIrreflexive(DateText(s[i]));
    }
  }

  // ---------------------------------------------------------------------------
  // Today and later, grouped by date

  /** `RES_YYYYMMDD >= today`; a missing date compares false. */
  predicate Upcoming(x: MyReservation, today: string) {
    x.ymd.Some? && LexLe(today, x.ymd.value)
  }

  function UpcomingList(xs: seq<MyReservation>, today: string): (r: seq<MyReservation>)
    ensures forall i :: 0 <= i < |r| ==> r[i] in xs && Upcoming(r[i], today)
    ensures forall i :: 0 <= i < |xs| && Upcoming(xs[i], today) ==> xs[i] in r
  {
    FilterMembers(xs, (x: MyReservation) => Upcoming(x, today));
    Filter(xs, (x: MyReservation) => Upcoming(x, today))
  }

  /** The distinct dates of a list, in order of first occurrence: the order
      the grouping object receives its keys. */
  function DatesInOrder(xs: seq<MyReservation>): (ds: seq<string>)
    ensures |ds| <= |xs|
  {
    if xs == [] then []
    else
      var init := DatesInOrder(xs[..|xs| - 1]);
      var last := xs[|xs| - 1];
      if last.ymd.None? || last.ymd.value in init then init else init + [last.ymd.value]
  }

  /** Every key is some record's date, every record's date is a key, and no
      key occurs twice. */
  lemma {:induction false} DatesInOrderSound(xs: seq<MyReservation>)
    ensures var ds := DatesInOrder(xs);
            forall i :: 0 <= i < |ds| ==> exists j :: 0 <= j < |xs| && xs[j].ymd == Some(ds[i])
    ensures var ds := DatesInOrder(xs);
            forall j :: 0 <= j < |xs| && xs[j].ymd.Some? ==> xs[j].ymd.value in ds
    ensures var ds := DatesInOrder(xs);
            forall i, k :: 0 <= i < k < |ds| ==> ds[i] != ds[k]
  {
    if xs != [] {
      var init := xs[..|xs| - 1];
      var last := xs[|xs| - 1];
      DatesInOrderSound(init);
      assert forall j :: 0 <= j < |xs| - 1 ==> init[j] == xs[j];
      var ds := DatesInOrder(xs);
      forall i | 0 <= i < |ds| ensures exists j :: 0 <= j < |xs| && xs[j].ymd == Some(ds[i]) {
        if i < |DatesInOrder(init)| {
          var j :| 0 <= j < |init| && init[j].ymd == Some(DatesInOrder(init)[i]);
          assert xs[j] == init[j];
        } else {
          assert xs[|xs| - 1].ymd == Some(ds[i]);
        }
      }
    }
  }

  /** The records of one date, in list order. */
  function GroupOf(xs: seq<MyReservation>, date: string): seq<MyReservation> {
    Filter(xs, (x: MyReservation) => x.ymd == Some(date))
  }

  lemma DatesInOrderSnoc(xs: seq<MyReservation>, x: MyReservation)
    ensures DatesInOrder(xs + [x]) ==
            (if x.ymd.None? || x.ymd.value in DatesInOrder(xs) then DatesInOrder(xs)
             else DatesInOrder(xs) + [x.ymd.value])
  {
    assert (xs + [x])[..|xs|] == xs;
  }

  lemma GroupOfSnoc(xs: seq<MyReservation>, x: MyReservation, date: string)
    ensures GroupOf(xs + [x], date) == GroupOf(xs, date) + (if x.ymd == Some(date) then [x] else [])
  {
    FilterAppend(xs, [x], (y: MyReservation) => y.ymd == Some(date));
  }

  /** A date that has not occurred yet has no records. */
  lemma {:induction false} GroupOfUnseen(xs: seq<MyReservation>, date: string)
    requires date !in DatesInOrder(xs)
    ensures GroupOf(xs, date) == []
  {
    if xs != [] {
      var init, last := xs[..|xs| - 1], xs[|xs| - 1];
      assert xs == init + [last];
      DatesInOrderSnoc(init, last);
      GroupOfUnseen(init, date);
      GroupOfSnoc(init, last, date);
    }
  }

  /** The grouping object after a list: each date seen so far, with its
      records. */
  function GroupsMap(xs: seq<MyReservation>): map<string, seq<MyReservation>> {
    map k | k in DatesInOrder(xs) :: GroupOf(xs, k)
  }

  /** One more dated record changes only its own date's group. */
  lemma GroupOfSnocDated(xs: seq<MyReservation>, x: MyReservation, k: string)
    requires x.ymd.Some?
    ensures GroupOf(xs + [x], k) ==
            if k == x.ymd.value then
              (if k in DatesInOrder(xs) then GroupOf(xs, k) else []) + [x]
            else GroupOf(xs, k)
  {
    GroupOfSnoc(xs, x, k);
    if k == x.ymd.value && k !in DatesInOrder(xs) {
      GroupOfUnseen(xs, k);
    }
  }

  /** One more record: pushed onto its date's group, which is created empty
      first when the date is new. */
  lemma GroupsMapSnoc(xs: seq<MyReservation>, x: MyReservation)
    requires x.ymd.Some?
    ensures var g := GroupsMap(xs);
            var d := x.ymd.value;
            GroupsMap(xs + [x]) == g[d := (if d in g then g[d] else []) + [x]]
  {
    var g := GroupsMap(xs);
    var d := x.ymd.value;
    var g' := GroupsMap(xs + [x]);
    var want := g[d := (if d in g then g[d] else []) + [x]];
    DatesInOrderSnoc(xs, x);
    assert g'.Keys == want.Keys;
    forall k | k in g'.Keys ensures g'[k] == want[k] {
      GroupOfSnocDated(xs, x, k);
    }
  }

  lemma GroupsMapSnocUndated(xs: seq<MyReservation>, x: MyReservation)
    requires x.ymd.None?
    ensures GroupsMap(xs + [x]) == GroupsMap(xs)
  {
    DatesInOrderSnoc(xs, x);
    forall k | k in DatesInOrder(xs) ensures GroupOf(xs + [x], k) == GroupOf(xs, k) {
      GroupOfSnoc(xs, x, k);
    }
  }

  /** The `reduce` into an object keyed by date. */
  method GroupByDate(xs: seq<MyReservation>) returns (keys: seq<string>, groups: map<string, seq<MyReservation>>)
    ensures keys == DatesInOrder(xs)
    ensures groups == GroupsMap(xs)
  {
    keys, groups := [], map[];
    for i := 0 to |xs|
      invariant keys == DatesInOrder(xs[..i])
      invariant groups == GroupsMap(xs[..i])
    {
      var x := xs[i];
      assert xs[..i + 1] == xs[..i] + [x];
      DatesInOrderSnoc(xs[..i], x);
      if x.ymd.Some? {
        GroupsMapSnoc(xs[..i], x);
        var d := x.ymd.value;
        var current := [];
        if d in groups {
          current := groups[d];
        } else {
          keys := keys + [d];
        }
        groups := groups[d := current + [x]];
      } else {
        GroupsMapSnocUndated(xs[..i], x);
      }
    }
    assert xs[..|xs|] == xs;
  }

  /** A property key that is a canonical array index. */
  predicate IsArrayIndex(k: string) {
    |k| > 0 && AllDigits(k) && (k[0] != '0' || k == "0") && DigitsValue(k) < 4294967295
  }

  function IndexValue(k: string): nat {
    if AllDigits(k) then DigitsValue(k) else 0
  }

  predicate IndexLe(a: string, b: string) {
    IndexValue(a) <= IndexValue(b)
  }

  /** `Object.entries` key order: array-index keys in ascending numeric
      order, then the other keys in the order they were added. */
  function EntryKeys(keys: seq<string>): seq<string> {
    SortBy(Filter(keys, IsArrayIndex), IndexLe) + Filter(keys, (k: string) => !IsArrayIndex(k))
  }

  /** The entry keys are the object's keys, each exactly as often. */
  lemma EntryKeysPermutation(keys: seq<string>)
    ensures multiset(EntryKeys(keys)) == multiset(keys)
    ensures forall k :: k in EntryKeys(keys) <==> k in keys
  {
    var indices := Filter(keys, IsArrayIndex);
    FilterPartition(keys, IsArrayIndex, (k: string) => !IsArrayIndex(k));
    assert TotalPreorder(IndexLe);
    SortByCorrect(indices, IndexLe);
    forall k ensures k in EntryKeys(keys) <==> k in keys {
      assert k in EntryKeys(keys) <==> k in multiset(EntryKeys(keys));
      assert k in keys <==> k in multiset(keys);
    }
  }

  /** When every key is an array index, the entries come in ascending numeric
      order of the keys, whatever order the keys were added in. */
  lemma EntryKeysAscending(keys: seq<string>)
    requires forall i :: 0 <= i < |keys| ==> IsArrayIndex(keys[i])
    ensures multiset(EntryKeys(keys)) == multiset(keys)
    ensures forall i, j :: 0 <= i < j < |EntryKeys(keys)| ==> IndexValue(EntryKeys(keys)[i]) <= IndexValue(EntryKeys(keys)[j])
  {
    FilterAll(keys, IsArrayIndex);
    FilterNone(keys, (k: string) => !IsArrayIndex(k));
    assert TotalPreorder(IndexLe);
    SortByCorrect(keys, IndexLe);
    assert EntryKeys(keys) == SortBy(keys, IndexLe);
  }

  function Pow10(n: nat): nat {
    if n == 0 then 1 else 10 * Pow10(n - 1)
  }

  lemma {:induction false} DigitsValueBound(s: string)
    requires AllDigits(s)
    ensures DigitsValue(s) < Pow10(|s|)
  {
    if s != [] {
      DigitsValueBound(s[..|s| - 1]);
    }
  }

  /** The yyyyMMdd form of a date is an array-index key, so date groups are
      listed by ascending date. */
  lemma DateKeyIsArrayIndex(d: DateTime)
    requires ValidDateTime(d)
    ensures IsArrayIndex(CompactDate(d))
  {
    CompactDateShape(d);
    NatToStringLength(d.year);
    var s := CompactDate(d);
    assert PadNat(d.year, 4) == NatToString(d.year);
    assert s[0] == NatToString(d.year)[0];
    DigitsValueBound(s);
    assert Pow10(8) == 100000000;
  }

  /** What the list renders: for each date key in `Object.entries` order,
      its records. */
  function DateGroups(xs: seq<MyReservation>, today: string): seq<(string, seq<MyReservation>)> {
    var visible := UpcomingList(xs, today);
    var keys := EntryKeys(DatesInOrder(visible));
    seq(|keys|, i requires 0 <= i < |keys| => (keys[i], GroupOf(visible, keys[i])))
  }

  /** Every rendered group is a non-empty list of records of today or later
      carrying the group's date. */
  lemma DateGroupsSound(xs: seq<MyReservation>, today: string, i: nat)
    requires i < |DateGroups(xs, today)|
    ensures var grp := DateGroups(xs, today)[i];
            |grp.1| > 0
            && forall k :: 0 <= k < |grp.1| ==> grp.1[k] in xs && Upcoming(grp.1[k], today) && grp.1[k].ymd == Some(grp.0)
  {
    var visible := UpcomingList(xs, today);
    var dates := DatesInOrder(visible);
    DatesInOrderSound(visible);
    var keys := EntryKeys(dates);
    var grp := DateGroups(xs, today)[i];
    assert grp == (keys[i], GroupOf(visible, keys[i]));
    EntryKeysPermutation(dates);
    assert keys[i] in dates;
    var m :| 0 <= m < |visible| && visible[m].ymd == Some(keys[i]);
    FilterMembers(visible, (x: MyReservation) => x.ymd == Some(keys[i]));
    assert visible[m] in GroupOf(visible, keys[i]);
    forall k | 0 <= k < |grp.1| ensures grp.1[k] in xs && Upcoming(grp.1[k], today) && grp.1[k].ymd == Some(grp.0) {
      GroupOfUpcoming(xs, today, keys[i], k);
    }
  }

  /** A record of a date's group of the shown records is a record of the
      list, of today or later, on that date. */
  lemma GroupOfUpcoming(xs: seq<MyReservation>, today: string, d: string, k: nat)
    requires k < |GroupOf(UpcomingList(xs, today), d)|
    ensures var x := GroupOf(UpcomingList(xs, today), d)[k];
            x in xs && Upcoming(x, today) && x.ymd == Some(d)
  {
    var visible := UpcomingList(xs, today);
    var x := GroupOf(visible, d)[k];
    FilterMembers(visible, (y: MyReservation) => y.ymd == Some(d));
    assert x in visible;
    var n :| 0 <= n < |visible| && visible[n] == x;
  }

  /** Every record of today or later is shown in its date's group. */
  lemma DateGroupsComplete(xs: seq<MyReservation>, today: string, j: nat)
    requires j < |xs| && Upcoming(xs[j], today)
    ensures var g := DateGroups(xs, today);
            exists i :: 0 <= i < |g| && g[i].0 == xs[j].ymd.value && xs[j] in g[i].1
  {
    var visible := UpcomingList(xs, today);
    var dates := DatesInOrder(visible);
    DatesInOrderSound(visible);
    var keys := EntryKeys(dates);
    var g := DateGroups(xs, today);
    EntryKeysPermutation(dates);
    var m :| 0 <= m < |visible| && visible[m] == xs[j];
    assert xs[j].ymd.value in dates;
    var i :| 0 <= i < |keys| && keys[i] == xs[j].ymd.value;
    assert g[i].1 == GroupOf(visible, keys[i]);
    FilterMembers(visible, (x: MyReservation) => x.ymd == Some(keys[i]));
    assert visible[m] in g[i].1;
  }

  /** When every shown date is an array-index key (as yyyyMMdd dates are),
      the groups come in ascending date order, although the list they are
      taken from is sorted with the latest date first. */
  lemma DateGroupsAscending(xs: seq<MyReservation>, today: string)
    requires forall i :: 0 <= i < |xs| && Upcoming(xs[i], today) ==> IsArrayIndex(xs[i].ymd.value)
    ensures var g := DateGroups(xs, today);
            forall i, j :: 0 <= i < j < |g| ==> IndexValue(g[i].0) <= IndexValue(g[j].0)
  {
    var visible := UpcomingList(xs, today);
    var dates := DatesInOrder(visible);
    DatesInOrderSound(visible);
    forall i | 0 <= i < |dates| ensures IsArrayIndex(dates[i]) {
      var m :| 0 <= m < |visible| && visible[m].ymd == Some(dates[i]);
      var n :| 0 <= n < |xs| && xs[n] == visible[m];
    }
    EntryKeysAscending(dates);
  }

  /** A group of the sorted list is in ascending hour order. */
  lemma GroupHoursAscending(xs: seq<MyReservation>, today: string, date: string)
    ensures var g := GroupOf(UpcomingList(SortList(xs), today), date);
            forall i, j :: 0 <= i < j < |g| ==> HourOrZero(g[i]) <= HourOrZero(g[j])
  {
    var s := SortList(xs);
    ListLeTotalPreorder();
    SortByCorrect(xs, ListLe);
    var visible := UpcomingList(s, today);
    FilterSortedBy(s, (x: MyReservation) => Upcoming(x, today), ListLe);
    var g := GroupOf(visible, date);
    FilterSortedBy(visible, (x: MyReservation) => x.ymd == Some(date), ListLe);
    FilterMembers(visible, (x: MyReservation) => x.ymd == Some(date));
    forall i, j | 0 <= i < j < |g| ensures HourOrZero(g[i]) <= HourOrZero(g[j]) {
      assert ListLe(g[i], g[j]);
      assert DateText(g[i]) == date == DateText(g[j]);
      LexLessIrreflexive(date);
    }
  }

  // ---------------------------------------------------------------------------
  // Cancelling

  /** The status of a cancelled reservation, "취소". */
  const CancelledStatus: string := "\U{CDE8}\U{C18C}"

  predicate Cancellable(x: MyReservation) {
    x.status != CancelledStatus
  }

  function CancellableItems(items: seq<MyReservation>): (r: seq<MyReservation>)
    ensures forall i :: 0 <= i < |r| ==> r[i] in items && Cancellable(r[i])
    ensures forall i :: 0 <= i < |items| && Cancellable(items[i]) ==> items[i] in r
  {
    FilterMembers(items, Cancellable);
    Filter(items, Cancellable)
  }

  /** The group's "Cancel All" button: some record is not cancelled. */
  predicate ShowCancelAll(items: seq<MyReservation>) {
    exists i :: 0 <= i < |items| && Cancellable(items[i])
  }

  /** The button shows exactly when cancel-all has something to cancel. */
  lemma ShowCancelAllIff(items: seq<MyReservation>)
    ensures ShowCancelAll(items) <==> |CancellableItems(items)| > 0
  {
    if |CancellableItems(items)| > 0 {
      assert CancellableItems(items)[0] in items;
    }
  }

  /** The request a cancellation sends, with the record's values as they
      are. */
  datatype CancelRequest = CancelRequest(roomId: Option<string>, ymd: Option<string>, hour: Option<int>, resId: string)

  function RequestFor(x: MyReservation): (q: CancelRequest)
    ensures q.roomId == x.roomId && q.ymd == x.ymd && q.hour == x.hour && q.resId == x.resId
  {
    CancelRequest(x.roomId, x.ymd, x.hour, x.resId)
  }

  type CancelResponse = CallResult<Payload<int>>

  datatype CancelAllOutcome =
    | NothingToCancel
    | Processed(requests: seq<CancelRequest>, successCount: nat, failCount: nat, refetch: bool)

  /** Cancel-all on a date group: nothing when every record is cancelled;
      otherwise one request per cancellable record, in order, each answered by
      the next response; the list is reloaded when at least one succeeded. */
  method CancelAll(items: seq<MyReservation>, responses: seq<CancelResponse>) returns (outcome: CancelAllOutcome)
    requires |responses| == |CancellableItems(items)|
    ensures outcome == NothingToCancel <==> !ShowCancelAll(items)
    ensures outcome.Processed? ==>
              var todo := CancellableItems(items);
              && |outcome.requests| == |todo|
              && (forall i :: 0 <= i < |todo| ==> outcome.requests[i] == RequestFor(todo[i]))
              && outcome.successCount == |Filter(responses, (r: CancelResponse) => CancelSucceeded(r))|
              && outcome.successCount + outcome.failCount == |todo|
              && outcome.refetch == (outcome.successCount > 0)
  {
    ShowCancelAllIff(items);
    var todo := CancellableItems(items);
    if |todo| == 0 {
      return NothingToCancel;
    }
    var p := (r: CancelResponse) => CancelSucceeded(r);
    var requests: seq<CancelRequest> := [];
    var successCount, failCount := 0, 0;
    for i := 0 to |todo|
      invariant |requests| == i
      invariant forall j :: 0 <= j < i ==> requests[j] == RequestFor(todo[j])
      invariant successCount == |Filter(responses[..i], p)|
      invariant successCount + failCount == i
    {
      requests := requests + [RequestFor(todo[i])];
      FilterAppend(responses[..i], [responses[i]], p);
      assert responses[..i + 1] == responses[..i] + [responses[i]];
      if CancelSucceeded(responses[i]) {
        successCount := successCount + 1;
      } else {
        failCount := failCount + 1;
      }
    }
    assert responses[..|todo|] == responses;
    outcome := Processed(requests, successCount, failCount, successCount > 0);
  }

  // ---------------------------------------------------------------------------
  // formatRoomName: name.replace(/, Room .* \((\d+)\)$/, ", $1")

  const RoomMarker: string := ", Room "

  /** The characters `.` does not match. */
  predicate IsLineTerminator(c: char) {
    c == '\n' || c == '\r' || c == '\U{2028}' || c == '\U{2029}'
  }

  /** The pattern matches `s` from index `p`, capturing `d`: ", Room ", a run
      without line terminators, " (", the digits `d`, ")" and the end. */
  predicate MatchesAt(s: string, p: nat, d: string) {
    && RoomCatalogue.IsTrailingGroup(s, d)
    && p + |RoomMarker| + |d| + 3 <= |s|
    && s[p..p + |RoomMarker|] == RoomMarker
    && s[|s| - |d| - 3] == ' '
    && forall i :: p + |RoomMarker| <= i < |s| - |d| - 3 ==> !IsLineTerminator(s[i])
  }

  /** The leftmost match position at or after `p`. */
  function FirstMatchFrom(s: string, p: nat, d: string): (q: Option<nat>)
    ensures q.Some? ==> p <= q.value && MatchesAt(s, q.value, d)
    ensures q.Some? ==> forall j :: p <= j < q.value ==> !MatchesAt(s, j, d)
    ensures q.None? ==> forall j: nat :: p <= j ==> !MatchesAt(s, j, d)
    decreases |s| - p
  {
    if p + |RoomMarker| + |d| + 3 > |s| then None
    else if MatchesAt(s, p, d) then Some(p)
    else FirstMatchFrom(s, p + 1, d)
  }

  function FormatRoomName(name: string): string {
    match RoomCatalogue.TrailingDigits(name)
    case None => name
    case Some(d) =>
      match FirstMatchFrom(name, 0, d)
      case None => name
      case Some(p) => name[..p] + ", " + d
  }

  /** At the leftmost match, the name is cut there and ends with ", " and the
      captured digits. */
  lemma FormatRoomNameMatch(name: string, p: nat, d: string)
    requires MatchesAt(name, p, d)
    requires forall q :: 0 <= q < p ==> !MatchesAt(name, q, d)
    ensures FormatRoomName(name) == name[..p] + ", " + d
  {
    RoomCatalogue.TrailingDigitsComplete(name, d);
  }

  /** The name changes exactly when the pattern matches somewhere. */
  lemma FormatRoomNameChangesIffMatch(name: string)
    ensures FormatRoomName(name) != name <==> exists p: nat, d :: MatchesAt(name, p, d)
  {
    if exists p: nat, d :: MatchesAt(name, p, d) {
      var p: nat, d :| MatchesAt(name, p, d);
      RoomCatalogue.TrailingDigitsComplete(name, d);
      var q := FirstMatchFrom(name, 0, d);
      assert |FormatRoomName(name)| < |name|;
    } else {
      RoomCatalogue.TrailingDigitsSound(name);
    }
  }

  /** A concrete name of the facility list. */
  lemma FormatRoomNameExample(s: string)
    requires s == "2F Group Study, Room A (205)"
    ensures FormatRoomName(s) == "2F Group Study, 205"
  {
    ExampleMatch(s);
    ExampleNoEarlierMatch(s);
    FormatRoomNameMatch(s, 14, "205");
    assert s[..14] == "2F Group Study";
  }

  lemma ExampleMatch(s: string)
    requires s == "2F Group Study, Room A (205)"
    ensures MatchesAt(s, 14, "205")
  {
    assert s[14..21] == RoomMarker;
    assert s[|s| - 4..|s| - 1] == "205";
    assert RoomCatalogue.IsTrailingGroup(s, "205");
  }

  lemma ExampleNoEarlierMatch(s: string)
    requires s == "2F Group Study, Room A (205)"
    ensures forall q :: 0 <= q < 14 ==> !MatchesAt(s, q, "205")
  {
    forall q | 0 <= q < 14 ensures !MatchesAt(s, q, "205") {
      assert s[q] != ',';
      assert s[q..q + 7][0] == s[q];
    }
  }

  // ---------------------------------------------------------------------------
  // The dialog's state

  /** The list's JSX: the records of `today` or later, grouped by date with
      `reduce`, in `Object.entries` order. */
  method ListGroups(xs: seq<MyReservation>, today: string) returns (groups: seq<(string, seq<MyReservation>)>)
    ensures groups == DateGroups(xs, today)
  {
    var visible := UpcomingList(xs, today);
    var keys, byDate := GroupByDate(visible);
    var ordered := EntryKeys(keys);
    EntryKeysPermutation(keys);
    groups := seq(|ordered|, i requires 0 <= i < |ordered| => (ordered[i], byDate[ordered[i]]));
    assert forall i :: 0 <= i < |ordered| ==> groups[i] == DateGroups(xs, today)[i];
  }

  /** The list as the dialog holds it: the sorted records and a counter bumped
      on each load to force a redraw. */
  class ReservationsView {
    var reservations: seq<MyReservation>
    var version: nat
    var loading: bool

    constructor()
      ensures reservations == [] && version == 0 && !loading
    {
      reservations := [];
      version := 0;
      loading := false;
    }

    /** A load begins: the spinner replaces the list until it ends. */
    method StartLoad()
      modifies this
      ensures loading
      ensures reservations == old(reservations) && version == old(version)
    {
      loading := true;
    }

    /** A load completes: the facility names, the four months' lists,
        normalised and sorted, replace the records and the spinner goes. */
    method Load(facilities: Option<seq<RoomCatalogue.Facility>>, responses: seq<CallResult<Payload<RawRecord>>>)
      modifies this
      ensures var roomMap := if facilities.Some? then RoomMapOf(facilities.value) else map[];
              reservations == SortList(NormalizedList(roomMap, responses))
      ensures version == old(version) + 1 && !loading
    {
      var roomMap := BuildRoomMap(facilities);
      reservations := SortList(NormalizedList(roomMap, responses));
      version := version + 1;
      loading := false;
    }

    /** A load that throws: the spinner goes and the records stay. */
    method LoadFailed()
      modifies this
      ensures !loading
      ensures reservations == old(reservations) && version == old(version)
    {
      loading := false;
    }

    /** What the dialog shows on `now`'s day: nothing but the spinner while
        loading, otherwise the date groups of the records. */
    method Render(now: DateTime) returns (shown: Option<seq<(string, seq<MyReservation>)>>)
      ensures loading ==> shown.None?
      ensures !loading ==> shown == Some(DateGroups(reservations, CompactDate(now)))
    {
      if loading {
        return None;
      }
      var groups := ListGroups(reservations, CompactDate(now));
      shown := Some(groups);
    }
  }
}
