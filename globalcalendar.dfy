/**
 * The month view of components/global-calendar.tsx, without its React parts.
 *
 * The component shows one month (`currentYear`, `currentMonth`, the month
 * 0-based as JavaScript's `getMonth` gives it) as a grid of cells under the
 * weekday headers, fills each day's cell with that day's bookings and the
 * leaves covering it, and moves between months.  Its helpers are pure
 * functions of the month and of a snapshot of the store's collections; the
 * grid itself is built by two loops, modelled as a method.
 */
module GlobalCalendar {
  import opened Wrappers
  import opened Seqs
  import opened Dates
  import opened Store

  /** Column headers, Sunday first, as `getDay` numbers the days. */
  const Weekdays: seq<string> := ["Dim", "Lun", "Mar", "Mer", "Jeu", "Ven", "Sam"]

  const TrainingColor: string := "bg-blue-100 border-blue-500 text-blue-800"
  const OfficeColor: string := "bg-green-100 border-green-500 text-green-800"

  // ---------------------------------------------------------------------------
  // Month arithmetic
  // ---------------------------------------------------------------------------

  /**
   * `getDaysInMonth(year, month)`: the day number of day 0 of the next month,
   * read back as a day of the month, which is the Gregorian month length.
   */
  function GetDaysInMonth(year: int, month0: nat): (n: nat)
    requires month0 < 12
    ensures month0 == 1 ==> (n == 29 <==> IsLeapYear(year)) && (n == 28 <==> !IsLeapYear(year))
    ensures month0 != 1 ==>
      (n == 30 <==> month0 == 3 || month0 == 5 || month0 == 8 || month0 == 10)
      && (n == 31 <==> !(month0 == 3 || month0 == 5 || month0 == 8 || month0 == 10))
  {
    DaysInMonth(year, month0 + 1)
  }

  /**
   * `new Date(year, month + 1, 0)` (for years 100 and later, where the
   * constructor takes the year as given) is the last day of the month: day
   * 0 of the next month in ECMA-262 MakeDay.
   */
  lemma GetDaysInMonthIsLastDay(year: int, month0: nat)
    requires month0 < 12
    ensures DayNumber(Ymd(year, month0 + 1, GetDaysInMonth(year, month0))) == MakeDay(year, month0 + 1, 0)
  {
    var n := GetDaysInMonth(year, month0);
    if month0 == 11 {
      MakeDayInNextYear(year, 0);
      DayFromYearNext(year);
    } else {
      MakeDayInYear(year, month0 + 1, 0);
      DaysBeforeNextMonth(year, month0);
    }
  }

  /** `getFirstDayOfMonth(year, month)`: the weekday of the first, 0 for Sunday. */
  function GetFirstDayOfMonth(year: int, month0: nat): (w: nat)
    requires month0 < 12
    ensures w < |Weekdays|
  {
    WeekDay(Ymd(year, month0 + 1, 1))
  }

  /** Adding `k` days to a day number moves its weekday `k` places round the week. */
  lemma WeekDayShift(n: int, k: nat)
    ensures (n + k + 4) % 7 == ((n + 4) % 7 + k) % 7
  {
  }

  /**
   * In the grid, day `k` sits in cell `first + k - 1`, and that cell's column
   * is the day's weekday: the grid lines every day up under its header.
   */
  lemma GridColumnIsWeekday(year: int, month0: nat, k: nat)
    requires month0 < 12 && 1 <= k <= GetDaysInMonth(year, month0)
    ensures (GetFirstDayOfMonth(year, month0) + k - 1) % 7 == WeekDay(Ymd(year, month0 + 1, k))
  {
    WeekDayShift(DayNumber(Ymd(year, month0 + 1, 1)), k - 1);
  }

  /** Day 1 of the next month comes `daysInMonth` days after day 1 of this one. */
  lemma NextMonthStartsAfter(year: int, month0: nat)
    requires month0 < 12
    ensures DayNumber(NextMonth(Ymd(year, month0 + 1, 1))) == DayNumber(Ymd(year, month0 + 1, 1)) + GetDaysInMonth(year, month0)
  {
    var first: Date := Ymd(year, month0 + 1, 1);
    if month0 == 11 {
      DayFromYearNext(year);
    } else {
      DaysBeforeNextMonth(year, month0);
    }
  }

  /** The next month starts `daysInMonth` weekdays after this one. */
  lemma NextFirstDay(year: int, month0: nat)
    requires month0 < 12
    ensures var next := NextMonth(Ymd(year, month0 + 1, 1));
      GetFirstDayOfMonth(next.year, next.month - 1)
      == (GetFirstDayOfMonth(year, month0) + GetDaysInMonth(year, month0)) % 7
  {
    var first: Date := Ymd(year, month0 + 1, 1);
    var next := NextMonth(first);
    NextMonthStartsAfter(year, month0);
    assert Ymd(next.year, next.month - 1 + 1, 1) == next;
    WeekDayShift(DayNumber(first), GetDaysInMonth(year, month0));
  }

  /** January 2024 began on a Monday. */
  lemma FirstDayOf2024()
    ensures Weekdays[GetFirstDayOfMonth(2024, 0)] == "Lun"
  {
    assert DayFromYear(2024) == 19723;
    assert DayNumber(Ymd(2024, 1, 1)) == 19723;
    assert (19723 + 4) % 7 == 1;
  }

  /** `prevMonth`: day 1 of the month before, December of the previous year after January. */
  function PrevMonth(d: Date): Date
  {
    if d.month == 1 then Ymd(d.year - 1, 12, 1) else Ymd(d.year, d.month - 1, 1)
  }

  /** `nextMonth`: day 1 of the month after, January of the next year after December. */
  function NextMonth(d: Date): Date
  {
    if d.month == 12 then Ymd(d.year + 1, 1, 1) else Ymd(d.year, d.month + 1, 1)
  }

  /** The months counted from year 0, so that neighbouring months differ by one. */
  function MonthIndex(d: Date): int
  {
    12 * d.year + d.month - 1
  }

  /** `prevMonth` is `new Date(year, month - 1, 1)` (years 100 and later): day 1, one month earlier. */
  lemma PrevMonthNumber(d: Date)
    ensures PrevMonth(d).day == 1 && MonthIndex(PrevMonth(d)) == MonthIndex(d) - 1
    ensures DayNumber(PrevMonth(d)) == MakeDay(d.year, d.month - 2, 1)
  {
    if d.month == 1 {
      assert (d.month - 2) / 12 == -1 && (d.month - 2) % 12 == 11;
    } else {
      MakeDayInYear(d.year, d.month - 2, 1);
    }
  }

  /** `nextMonth` is `new Date(year, month + 1, 1)` (years 100 and later): day 1, one month later. */
  lemma NextMonthNumber(d: Date)
    ensures NextMonth(d).day == 1 && MonthIndex(NextMonth(d)) == MonthIndex(d) + 1
    ensures DayNumber(NextMonth(d)) == MakeDay(d.year, d.month, 1)
  {
    if d.month == 12 {
      MakeDayInNextYear(d.year, 1);
    } else {
      MakeDayInYear(d.year, d.month, 1);
    }
  }

  /** Going back a month and forward again returns to day 1 of the month shown, and vice versa. */
  lemma PrevNextInverse(d: Date)
    ensures NextMonth(PrevMonth(d)) == d.(day := 1)
    ensures PrevMonth(NextMonth(d)) == d.(day := 1)
  {
  }

  // ---------------------------------------------------------------------------
  // The grid
  // ---------------------------------------------------------------------------

  /**
   * `calendarDays`: `firstDayOfMonth` empty cells, then the days 1 to
   * `daysInMonth` in order.
   */
  method CalendarDays(firstDayOfMonth: nat, daysInMonth: nat) returns (cells: seq<Option<nat>>)
    ensures |cells| == firstDayOfMonth + daysInMonth
    ensures forall i :: 0 <= i < firstDayOfMonth ==> cells[i] == None
    ensures forall i :: firstDayOfMonth <= i < |cells| ==> cells[i] == Some(i - firstDayOfMonth + 1)
  {
    cells := [];
    var i := 0;
    while i < firstDayOfMonth
      invariant 0 <= i <= firstDayOfMonth && |cells| == i
      invariant forall j :: 0 <= j < i ==> cells[j] == None
    {
      cells := cells + [None];
      i := i + 1;
    }
    var day := 1;
    while day <= daysInMonth
      invariant 1 <= day <= daysInMonth + 1 && |cells| == firstDayOfMonth + day - 1
      invariant forall j :: 0 <= j < firstDayOfMonth ==> cells[j] == None
      invariant forall j :: firstDayOfMonth <= j < |cells| ==> cells[j] == Some(j - firstDayOfMonth + 1)
    {
      cells := cells + [Some(day)];
      day := day + 1;
    }
  }

  // ---------------------------------------------------------------------------
  // What the month shows
  // ---------------------------------------------------------------------------

  /** `filteredBookings`: the bookings dated in the month shown, in store order. */
  function FilteredBookings(bookings: seq<Booking>, year: int, month0: nat): seq<Booking>
  {
    Filter(bookings, (b: Booking) => b.date.month == month0 + 1 && b.date.year == year)
  }

  /** The first and the last day of the month shown. */
  function MonthStart(year: int, month0: nat): Date
    requires month0 < 12
  {
    Ymd(year, month0 + 1, 1)
  }

  function MonthEnd(year: int, month0: nat): Date
    requires month0 < 12
  {
    Ymd(year, month0 + 1, GetDaysInMonth(year, month0))
  }

  /** The month filter on leaves: the leave meets the month, or starts in it, or ends in it. */
  predicate ShownInMonth(l: Leave, year: int, month0: nat)
    requires month0 < 12
  {
    (OnOrBefore(l.startDate, MonthEnd(year, month0)) && OnOrBefore(MonthStart(year, month0), l.endDate))
    || (l.startDate.month == month0 + 1 && l.startDate.year == year)
    || (l.endDate.month == month0 + 1 && l.endDate.year == year)
  }

  /** `filteredLeaves`. */
  function FilteredLeaves(leaves: seq<Leave>, year: int, month0: nat): seq<Leave>
    requires month0 < 12
  {
    Filter(leaves, (l: Leave) => ShownInMonth(l, year, month0))
  }

  /**
   * The bookings kept are exactly those of the store dated in the month, in
   * store order.
   */
  lemma FilteredBookingsInMonth(bookings: seq<Booking>, year: int, month0: nat, front: seq<Booking>, back: seq<Booking>)
    requires bookings == front + back
    ensures forall b :: b in FilteredBookings(bookings, year, month0) <==>
      b in bookings && b.date.year == year && b.date.month == month0 + 1
    ensures FilteredBookings(bookings, year, month0)
         == FilteredBookings(front, year, month0) + FilteredBookings(back, year, month0)
  {
    FilterConcat(front, back, (b: Booking) => b.date.month == month0 + 1 && b.date.year == year);
  }

  /**
   * For a leave that does not end before it starts, the month filter keeps
   * it exactly when its days meet the month: the tests on the start's and
   * the end's month add nothing.
   */
  lemma ShownInMonthIffMeets(l: Leave, year: int, month0: nat)
    requires month0 < 12 && OnOrBefore(l.startDate, l.endDate)
    ensures ShownInMonth(l, year, month0) <==>
      OnOrBefore(l.startDate, MonthEnd(year, month0)) && OnOrBefore(MonthStart(year, month0), l.endDate)
  {
    var first, last := MonthStart(year, month0), MonthEnd(year, month0);
    if l.startDate.month == month0 + 1 && l.startDate.year == year {
      OnOrBeforeTransitive(first, l.startDate, l.endDate);
    }
    if l.endDate.month == month0 + 1 && l.endDate.year == year {
      OnOrBeforeTransitive(l.startDate, l.endDate, last);
    }
  }

  /** `getRoomLeavesForDay(day)`: the month's leaves whose days include that day. */
  function RoomLeavesForDay(filteredLeaves: seq<Leave>, year: int, month0: nat, day: nat): seq<Leave>
    requires month0 < 12 && 1 <= day <= GetDaysInMonth(year, month0)
  {
    var checkDate: Date := Ymd(year, month0 + 1, day);
    Filter(filteredLeaves, (l: Leave) => OnOrBefore(l.startDate, checkDate) && OnOrBefore(checkDate, l.endDate))
  }

  /**
   * A day's cell lists exactly the leaves of the store that cover the day,
   * both ends included: the month filter drops none of them.
   */
  lemma LeavesForDayCover(leaves: seq<Leave>, year: int, month0: nat, day: nat)
    requires month0 < 12 && 1 <= day <= GetDaysInMonth(year, month0)
    ensures var d: Date := Ymd(year, month0 + 1, day);
      forall l :: l in RoomLeavesForDay(FilteredLeaves(leaves, year, month0), year, month0, day) <==>
        l in leaves && OnOrBefore(l.startDate, d) && OnOrBefore(d, l.endDate)
  {
    var d: Date := Ymd(year, month0 + 1, day);
    var first, last := MonthStart(year, month0), MonthEnd(year, month0);
    forall l | l in leaves && OnOrBefore(l.startDate, d) && OnOrBefore(d, l.endDate)
      ensures ShownInMonth(l, year, month0)
    {
      OnOrBeforeTransitive(l.startDate, d, last);
      OnOrBeforeTransitive(first, d, l.endDate);
    }
  }

  /**
   * A leave entered end first is still listed in the month it starts in,
   * yet no day's cell of that month shows it: it covers no day.
   */
  lemma InvertedLeaveShown(leaves: seq<Leave>, l: Leave, year: int, month0: nat)
    requires month0 < 12 && l in leaves && Before(l.endDate, l.startDate)
    requires l.startDate.year == year && l.startDate.month == month0 + 1
    ensures l in FilteredLeaves(leaves, year, month0)
    ensures forall day :: 1 <= day <= GetDaysInMonth(year, month0) ==>
      l !in RoomLeavesForDay(FilteredLeaves(leaves, year, month0), year, month0, day)
  {
    forall day | 1 <= day <= GetDaysInMonth(year, month0)
      ensures l !in RoomLeavesForDay(FilteredLeaves(leaves, year, month0), year, month0, day)
    {
      var d: Date := Ymd(year, month0 + 1, day);
      if OnOrBefore(l.startDate, d) && OnOrBefore(d, l.endDate) {
        OnOrBeforeTransitive(l.startDate, d, l.endDate);
      }
    }
  }

  /**
   * The key of a day's cell: the year as `String` writes it, then the month
   * (1-based) and the day padded to two digits.
   */
  function DateKey(year: int, month0: nat, day: nat): string
  {
    IntToString(year) + "-" + PadStart(NatToString(month0 + 1), 2) + "-" + PadStart(NatToString(day), 2)
  }

  /** For four-digit years the cell key is the stored "YYYY-MM-DD" text of that day. */
  lemma DateKeyIsIsoDate(year: int, month0: nat, day: nat)
    requires 1000 <= year <= 9999 && month0 < 12 && 1 <= day <= GetDaysInMonth(year, month0)
    ensures DateKey(year, month0, day) == FormatDate(Ymd(year, month0 + 1, day))
  {
    PadFourDigitYear(year);
  }

  /** `dayBookings`: the month's bookings whose stored date text equals the cell's key. */
  function DayBookings(filteredBookings: seq<Booking>, key: string): seq<Booking>
  {
    Filter(filteredBookings, (b: Booking) => FormatDate(b.date) == key)
  }

  /**
   * For a four-digit year, a day's cell lists exactly the bookings of the
   * store dated that day.
   */
  lemma CellBookingsAreTheDays(bookings: seq<Booking>, year: int, month0: nat, day: nat)
    requires 1000 <= year <= 9999 && month0 < 12 && 1 <= day <= GetDaysInMonth(year, month0)
    ensures forall b :: b in DayBookings(FilteredBookings(bookings, year, month0), DateKey(year, month0, day)) <==>
      b in bookings && b.date == Ymd(year, month0 + 1, day)
  {
    var d: Date := Ymd(year, month0 + 1, day);
    DateKeyIsIsoDate(year, month0, day);
    forall b | b in bookings && b.date.year == year && FormatDate(b.date) == FormatDate(d)
      ensures b.date == d
    {
      FormatDateInjective(b.date, d);
    }
  }

  /** Every stored date text is at least ten characters long. */
  lemma FormatDateLength(d: Date)
    ensures |FormatDate(d)| >= 10
  {
  }

  /**
   * Before year 1000 the year is not padded, so the key is shorter than any
   * stored date text and the day's cell shows no booking.
   */
  lemma DateKeyUnpaddedYear(bookings: seq<Booking>, year: int, month0: nat, day: nat)
    requires 0 <= year <= 999 && month0 < 12 && 1 <= day <= GetDaysInMonth(year, month0)
    ensures |DateKey(year, month0, day)| < 10
    ensures DayBookings(FilteredBookings(bookings, year, month0), DateKey(year, month0, day)) == []
  {
    NatToStringShort(year, 3);
    NatToStringShort(month0 + 1, 2);
    NatToStringShort(day, 2);
    var key := DateKey(year, month0, day);
    var shown := FilteredBookings(bookings, year, month0);
    forall i | 0 <= i < |shown|
      ensures FormatDate(shown[i].date) != key
    {
      FormatDateLength(shown[i].date);
    }
    FilterDropsAll(shown, (b: Booking) => FormatDate(b.date) == key);
  }

  // ---------------------------------------------------------------------------
  // Labels
  // ---------------------------------------------------------------------------

  /** `getRoomName(roomId)`: the name of the first room with that id, or the id itself. */
  function GetRoomName(rooms: seq<Room>, roomId: string): (name: string)
    ensures (forall i :: 0 <= i < |rooms| ==> rooms[i].id != roomId) ==> name == roomId
    ensures forall i :: 0 <= i < |rooms| && rooms[i].id == roomId && (forall j :: 0 <= j < i ==> rooms[j].id != roomId)
                        ==> name == rooms[i].name
  {
    match FindRoom(rooms, roomId)
    case Some(room) => room.name
    case None => roomId
  }

  /**
   * `getCollaboratorName(roomId)`: the name of the first collaborator whose
   * id is the room's non-empty `collaboratorId`, and "" when the room is
   * unknown, has no collaborator, or its collaborator is unknown.
   */
  function GetCollaboratorName(rooms: seq<Room>, collaborators: seq<Collaborator>, roomId: string): (name: string)
    ensures (forall i :: 0 <= i < |rooms| ==> rooms[i].id != roomId) ==> name == ""
    ensures forall i :: 0 <= i < |rooms| && rooms[i].id == roomId && (forall j :: 0 <= j < i ==> rooms[j].id != roomId) ==>
      if rooms[i].collaboratorId.None? || rooms[i].collaboratorId.value == "" then name == ""
      else
        var cid := rooms[i].collaboratorId.value;
        ((forall k :: 0 <= k < |collaborators| ==> collaborators[k].id != cid) ==> name == "")
        && (forall k :: (0 <= k < |collaborators| && collaborators[k].id == cid
                         && (forall j :: 0 <= j < k ==> collaborators[j].id != cid)) ==> name == collaborators[k].name)
  {
    match FindRoom(rooms, roomId)
    case Some(room) =>
      if room.collaboratorId.Some? && room.collaboratorId.value != "" then
        match Find(collaborators, (c: Collaborator) => c.id == room.collaboratorId.value)
        case Some(c) => c.name
        case None => ""
      else ""
    case None => ""
  }

  /** `getRoomColor(roomId)`: blue for a training room, green otherwise, unknown rooms included. */
  function GetRoomColor(rooms: seq<Room>, roomId: string): (color: string)
    ensures color == TrainingColor <==>
      exists i :: 0 <= i < |rooms| && rooms[i].id == roomId && rooms[i].kind == Training
                  && forall j :: 0 <= j < i ==> rooms[j].id != roomId
    ensures color == TrainingColor || color == OfficeColor
  {
    var room := FindRoom(rooms, roomId);
    assert TrainingColor[3] != OfficeColor[3];
    if room.Some? && room.value.kind == Training then TrainingColor else OfficeColor
  }
}
