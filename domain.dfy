/** The front-end's records (src/types/index.ts) and the date and time strings
    it builds. */
module Domain {
  import opened Optional
  import opened JsText

  /** Room categories; the catalogue derives only Group and Personal rooms. */
  datatype RoomKind = Group | Personal | MiniTheater | Studio

  /** A bookable room as derived from a facility record. `originalName` and
      `roomNum` are the extra properties the derivation keeps for its filter. */
  datatype Room = Room(
    id: string,
    name: string,
    capacity: nat,
    kind: RoomKind,
    floor: string,
    equipment: seq<string>,
    originalName: string,
    roomNum: nat)

  datatype ReservationStatus = Confirmed | Cancelled

  /** One occupied hour of one room. `userId` is the owner's id, or the
      sentinel "other" / "me" for entries synthesized from a room's lists. */
  datatype Reservation = Reservation(
    id: string,
    roomId: string,
    userId: string,
    startTime: string,
    endTime: string,
    date: string,
    status: ReservationStatus)

  /** A pending (room, time) selection; `time` is the grid's "H:00". */
  datatype Slot = Slot(room: Room, time: string)

  /** The logged-in account: `org_nm` and `library_yn` may be empty. */
  datatype User = User(userId: string, orgName: string, libraryYn: string)

  /** A local date and time of day, in milliseconds since local midnight. */
  datatype DateTime = DateTime(year: nat, month: nat, day: nat, msOfDay: nat)

  const MsPerDay: nat := 86_400_000

  predicate ValidDateTime(d: DateTime) {
    1000 <= d.year <= 9999 && 1 <= d.month <= 12 && 1 <= d.day <= 31 && d.msOfDay < MsPerDay
  }

  /** yyyymmdd as a number: orders calendar days chronologically. */
  function DayKey(d: DateTime): nat {
    d.year * 10000 + d.month * 100 + d.day
  }

  /** date-fns `format(d, "yyyyMMdd")`. */
  function CompactDate(d: DateTime): string {
    PadNat(d.year, 4) + PadNat(d.month, 2) + PadNat(d.day, 2)
  }

  /** date-fns `format(d, "yyyy-MM-dd")`. */
  function DashedDate(d: DateTime): string {
    PadNat(d.year, 4) + "-" + PadNat(d.month, 2) + "-" + PadNat(d.day, 2)
  }

  /** `${s.substring(0, 4)}-${s.substring(4, 6)}-${s.substring(6, 8)}`. */
  function DashedFromCompact(s: string): string {
    Substring(s, 0, 4) + "-" + Substring(s, 4, 6) + "-" + Substring(s, 6, 8)
  }

  /** A reservation's start or end time: `${h.toString().padStart(2, "0")}:00`. */
  function HourTime(h: int): string {
    Pad2(h) + ":00"
  }

  /** The time a grid cell passes on click: `${hour}:00`, not padded. */
  function CellTime(h: nat): string {
    NatToString(h) + ":00"
  }

  lemma PadNatLength(n: nat, width: nat)
    requires width >= 1
    requires n < 10 || (width >= 2 && n < 100) || (width == 4 && n < 10000)
    ensures |PadNat(n, width)| == width
  {
    NatToStringLength(n);
  }

  lemma CompactDateShape(d: DateTime)
    requires ValidDateTime(d)
    ensures |CompactDate(d)| == 8 && AllDigits(CompactDate(d))
    ensures CompactDate(d) == PadNat(d.year, 4) + PadNat(d.month, 2) + PadNat(d.day, 2)
  {
    PadNatLength(d.year, 4);
    PadNatLength(d.month, 2);
    PadNatLength(d.day, 2);
  }

  /** The two formats of the selected date agree: re-dashing the compact form
      gives the dashed form. */
  lemma DashedFromCompactDate(d: DateTime)
    requires ValidDateTime(d)
    ensures DashedFromCompact(CompactDate(d)) == DashedDate(d)
  {
    CompactDateShape(d);
    var s := CompactDate(d);
    assert s[0..4] == PadNat(d.year, 4);
    assert s[4..6] == PadNat(d.month, 2);
    assert s[6..8] == PadNat(d.day, 2);
  }

  /** Stripping the dashes from a re-dashed eight-digit date gives it back. */
  lemma StripDashedFromCompact(s: string)
    requires |s| == 8 && AllDigits(s)
    ensures StripDashes(DashedFromCompact(s)) == s
  {
    var a, b, c := s[0..4], s[4..6], s[6..8];
    assert AllDigits(a) && AllDigits(b) && AllDigits(c);
    StripDashesAppend(a + "-" + b + "-", c);
    StripDashesAppend(a + "-" + b, "-");
    StripDashesAppend(a + "-", b);
    StripDashesAppend(a, "-");
    StripDashesOfDigits(a);
    StripDashesOfDigits(b);
    StripDashesOfDigits(c);
    assert a + b + c == s;
  }

  /** A reservation start time names its hour: parseInt reads it back. */
  lemma ParseHourTime(h: int)
    ensures ParseInt(HourTime(h)) == Some(h)
  {
    ParseIntPad2(h, ":00");
  }

  /** A grid cell's time names its hour: parseInt reads it back. */
  lemma ParseCellTime(h: nat)
    ensures ParseInt(CellTime(h)) == Some(h)
  {
    ParseIntNatToString(h, ":00");
  }

  /** A grid cell's time: the unpadded rendering of the clock hour parseInt
      reads from it. */
  predicate IsCellTime(t: string) {
    ParseInt(t).Some? && ParseInt(t).value >= 0 && t == CellTime(ParseInt(t).value as nat)
  }

  lemma CellTimeIsCellTime(h: nat)
    ensures IsCellTime(CellTime(h))
  {
    ParseCellTime(h);
  }

  /** A start time as the front-end builds them: the padded rendering of the
      hour parseInt reads from it. */
  predicate IsHourTime(t: string) {
    ParseInt(t).Some? && t == HourTime(ParseInt(t).value)
  }

  /** Every start time in a grid is the padded rendering of an hour. */
  predicate HourStartTimes(rs: seq<Reservation>) {
    forall i :: 0 <= i < |rs| ==> IsHourTime(rs[i].startTime)
  }

  lemma HourTimeIsHourTime(h: int)
    ensures IsHourTime(HourTime(h))
  {
    ParseHourTime(h);
  }

  lemma Pad2Chars(n: int)
    ensures forall i :: 0 <= i < |Pad2(n)| ==> Pad2(n)[i] != ':'
    ensures forall i :: 1 <= i < |Pad2(n)| ==> IsDigit(Pad2(n)[i])
  {
  }

  /** A start time begins with the start time of hour h iff it is hour h's:
      the lookup by `startsWith` finds exactly that hour. */
  lemma HourTimePrefix(x: int, h: int)
    ensures StartsWith(HourTime(x), HourTime(h)) <==> x == h
  {
    var a, b := Pad2(x), Pad2(h);
    Pad2Chars(x);
    Pad2Chars(h);
    if StartsWith(HourTime(x), HourTime(h)) {
      assert HourTime(h)[|b|] == ':';
      assert HourTime(x)[|b|] == ':';
      assert |a| == |b|;
      assert a == HourTime(x)[..|a|];
      assert b == HourTime(h)[..|b|];
      Pad2Injective(x, h);
    }
  }

  /** A padded start time never begins with a grid cell's unpadded time below
      10:00; from 10:00 on it does iff the hours agree. */
  lemma CellTimePrefix(x: int, h: nat)
    ensures StartsWith(HourTime(x), CellTime(h)) <==> h >= 10 && x == h
  {
    if h >= 10 {
      assert CellTime(h) == HourTime(h);
      HourTimePrefix(x, h);
    } else {
      Pad2Chars(x);
      assert CellTime(h)[1] == ':';
      assert |Pad2(x)| >= 2 && HourTime(x)[1] == Pad2(x)[1];
    }
  }
}
