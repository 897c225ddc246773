/**
 * The booking store of lib/store.ts.
 *
 * One long-lived store holds seven collections.  Every operation of the
 * program computes some of them afresh from the current state and replaces
 * them (`set(state => ({ ... }))`); here each such computation is a function
 * from a `State` value to the next `State`, and the class `BookingStore`
 * holds the fields and has one method per operation whose postcondition
 * ties the new fields to that function.  The recurring branch of
 * `addBooking`, the one loop of the store, is a `while` loop in the method.
 */
module Store {
  import opened Wrappers
  import opened Seqs
  import opened Dates

  // ---------------------------------------------------------------------------
  // Entities
  // ---------------------------------------------------------------------------

  /** A time of day in minutes since midnight; the program writes it "HH:MM". */
  type Minutes = nat

  datatype RoomKind = Training | Office

  /** A bookable space; an office may be tied to one collaborator. */
  datatype Room = Room(id: string, name: string, kind: RoomKind, collaboratorId: Option<string>)

  datatype Collaborator = Collaborator(id: string, name: string, role: string, email: Option<string>, phone: Option<string>)

  /** A period, inclusive at both ends, during which the office `referentId` is closed. */
  datatype Leave = Leave(id: string, referentId: string, startDate: Date, endDate: Date, reason: string, title: string)

  datatype TrainingType = TrainingType(id: string, name: string)

  datatype Recurrence = Daily | Weekly | Monthly | Yearly

  /** A booking; `kind` is the free-form training category (the program's `type`). */
  datatype Booking = Booking(
    id: string,
    roomId: string,
    title: string,
    date: Date,
    startTime: Minutes,
    endTime: Minutes,
    kind: string,
    description: string,
    isRecurring: bool,
    recurrenceEndDate: Option<Date>,
    recurrencePattern: Option<Recurrence>)

  /**
   * One key of a partial update: absent, or present with a value.  For an
   * optional field the value may itself be None, which is how an update
   * that spells out `collaboratorId: undefined` clears the field.
   */
  datatype Field<T> = Keep | Set(value: T)

  /** The effect of one key of `{ ...current, ...updates }`. */
  function Patch<T>(f: Field<T>, current: T): T
  {
    match f
    case Keep => current
    case Set(v) => v
  }

  datatype RoomUpdate = RoomUpdate(id: Field<string>, name: Field<string>, kind: Field<RoomKind>, collaboratorId: Field<Option<string>>)

  datatype LeaveUpdate = LeaveUpdate(
    id: Field<string>, referentId: Field<string>, startDate: Field<Date>, endDate: Field<Date>,
    reason: Field<string>, title: Field<string>)

  datatype CollaboratorUpdate = CollaboratorUpdate(
    id: Field<string>, name: Field<string>, role: Field<string>,
    email: Field<Option<string>>, phone: Field<Option<string>>)

  function PatchRoom(r: Room, u: RoomUpdate): Room
  {
    Room(Patch(u.id, r.id), Patch(u.name, r.name), Patch(u.kind, r.kind), Patch(u.collaboratorId, r.collaboratorId))
  }

  function PatchLeave(l: Leave, u: LeaveUpdate): Leave
  {
    Leave(Patch(u.id, l.id), Patch(u.referentId, l.referentId), Patch(u.startDate, l.startDate),
          Patch(u.endDate, l.endDate), Patch(u.reason, l.reason), Patch(u.title, l.title))
  }

  function PatchCollaborator(c: Collaborator, u: CollaboratorUpdate): Collaborator
  {
    Collaborator(Patch(u.id, c.id), Patch(u.name, c.name), Patch(u.role, c.role),
                 Patch(u.email, c.email), Patch(u.phone, c.phone))
  }

  /** The store's seven collections. */
  datatype State = State(
    bookings: seq<Booking>,
    selectedRoom: string,
    selectedRooms: seq<string>,
    customTrainingTypes: seq<TrainingType>,
    rooms: seq<Room>,
    leaves: seq<Leave>,
    collaborators: seq<Collaborator>)

  // ---------------------------------------------------------------------------
  // Seed state
  // ---------------------------------------------------------------------------

  const DefaultTrainingTypes: seq<TrainingType> := [
    TrainingType("1", "IDENTIFIER SES POTENTIELS"),
    TrainingType("2", "PREPARATION A L'EMPLOI"),
    TrainingType("3", "CONNAISSANCES DU MONDE DE L'ENTREPRISE"),
    TrainingType("4", "NUMERIQUE"),
    TrainingType("5", "SAVOIRS DE BASE"),
    TrainingType("6", "FAVORISER L'AGENTIVITE"),
    TrainingType("7", "AUTRE")
  ]

  const DefaultCollaborators: seq<Collaborator> := [
    Collaborator("collab1", "Kathy", "Formatrice", None, None),
    Collaborator("collab2", "Yvan", "Formateur", None, None),
    Collaborator("collab3", "Siham", "Formatrice", None, None),
    Collaborator("collab4", "Kim", "Formatrice", None, None),
    Collaborator("collab5", "Valérie", "Formatrice", None, None),
    Collaborator("collab6", "Samira", "Formatrice", None, None),
    Collaborator("collab7", "Laure", "Formatrice", None, None)
  ]

  const DefaultRooms: seq<Room> := [
    Room("salle1", "Salle 1", Training, None),
    Room("salle2", "Salle 2", Training, None),
    Room("kathy", "Bureau Kathy", Office, Some("collab1")),
    Room("yvan", "Bureau Yvan", Office, Some("collab2")),
    Room("siham", "Bureau Siham", Office, Some("collab3")),
    Room("kim", "Bureau Kim", Office, Some("collab4")),
    Room("valerie", "Bureau Valérie", Office, Some("collab5")),
    Room("samira", "Bureau Samira", Office, Some("collab6")),
    Room("laure", "Bureau Laure", Office, Some("collab7"))
  ]

  /** The state of a first run. */
  const Seed: State := State([], "salle1", [], DefaultTrainingTypes, DefaultRooms, [], DefaultCollaborators)

  /** No two rooms share an id, and a training room is tied to no collaborator. */
  predicate RoomsWellFormed(rooms: seq<Room>)
  {
    (forall i, j :: 0 <= i < j < |rooms| ==> rooms[i].id != rooms[j].id)
    && (forall i :: 0 <= i < |rooms| && rooms[i].kind == Training ==> rooms[i].collaboratorId.None?)
  }

  /**
   * The seed rooms satisfy the room invariant, the seed collaborators have
   * distinct ids, and the seed's offices are tied, in order, to the seed
   * collaborators.
   */
  lemma SeedWellFormed()
    ensures RoomsWellFormed(Seed.rooms)
    ensures forall i, j :: 0 <= i < j < |Seed.collaborators| ==> Seed.collaborators[i].id != Seed.collaborators[j].id
    ensures |Seed.rooms| == |Seed.collaborators| + 2
    ensures forall i :: 2 <= i < |Seed.rooms| ==>
      Seed.rooms[i].kind == Office && Seed.rooms[i].collaboratorId == Some(Seed.collaborators[i - 2].id)
  {
    forall i, j | 0 <= i < j < |DefaultRooms|
      ensures DefaultRooms[i].id != DefaultRooms[j].id
    {
      var a, b := DefaultRooms[i].id, DefaultRooms[j].id;
      assert i == 0 || i == 1 || i == 2 || i == 3 || i == 4 || i == 5 || i == 6 || i == 7 || i == 8;
      assert a[1] != b[1] || a[|a| - 1] != b[|b| - 1] || |a| != |b|;
    }
    forall i, j | 0 <= i < j < |DefaultCollaborators|
      ensures DefaultCollaborators[i].id != DefaultCollaborators[j].id
    {
      assert DefaultCollaborators[i].id[6] != DefaultCollaborators[j].id[6];
    }
  }

  // ---------------------------------------------------------------------------
  // Availability
  // ---------------------------------------------------------------------------

  /**
   * The conflict test's three patterns: the existing booking covers the new
   * start, covers the new end, or lies within the new interval.
   */
  predicate Overlaps(existing: Booking, startTime: Minutes, endTime: Minutes)
  {
    (existing.startTime <= startTime && existing.endTime > startTime)
    || (existing.startTime < endTime && existing.endTime >= endTime)
    || (existing.startTime >= startTime && existing.endTime <= endTime)
  }

  /** `bookingId` is the booking `id` itself or one of the occurrences `id-YYYY-MM-DD` of its series. */
  predicate InSeries(bookingId: string, id: string)
  {
    bookingId == id || id + "-" <= bookingId
  }

  /** The availability check ignores `b`: an exclude id is given, is not empty, and `b` is in its series. */
  predicate Excluded(b: Booking, excludeBookingId: Option<string>)
  {
    excludeBookingId.Some? && excludeBookingId.value != "" && InSeries(b.id, excludeBookingId.value)
  }

  predicate Conflicts(b: Booking, roomId: string, date: Date, startTime: Minutes, endTime: Minutes)
  {
    b.roomId == roomId && b.date == date && Overlaps(b, startTime, endTime)
  }

  predicate HasConflict(bookings: seq<Booking>, roomId: string, date: Date, startTime: Minutes, endTime: Minutes,
                        excludeBookingId: Option<string>)
  {
    exists i :: 0 <= i < |bookings| && !Excluded(bookings[i], excludeBookingId)
                && Conflicts(bookings[i], roomId, date, startTime, endTime)
  }

  /** `rooms.find(r => r.id === id)`. */
  function FindRoom(rooms: seq<Room>, id: string): Option<Room>
  {
    Find(rooms, (r: Room) => r.id == id)
  }

  /** Some leave of the referent `roomId` covers `date`, both ends included. */
  predicate LeaveCovers(leaves: seq<Leave>, roomId: string, date: Date)
  {
    exists i :: 0 <= i < |leaves| && leaves[i].referentId == roomId
                && OnOrBefore(leaves[i].startDate, date) && OnOrBefore(date, leaves[i].endDate)
  }

  /** The room is an office (as the first room with that id says) and its referent is on leave. */
  predicate ReferentOnLeave(rooms: seq<Room>, leaves: seq<Leave>, roomId: string, date: Date)
  {
    var room := FindRoom(rooms, roomId);
    room.Some? && room.value.kind == Office && LeaveCovers(leaves, roomId, date)
  }

  /** `isRoomAvailable(roomId, date, startTime, endTime, excludeBookingId)`. */
  predicate RoomAvailable(s: State, roomId: string, date: Date, startTime: Minutes, endTime: Minutes,
                          excludeBookingId: Option<string>)
  {
    !HasConflict(s.bookings, roomId, date, startTime, endTime, excludeBookingId)
    && !ReferentOnLeave(s.rooms, s.leaves, roomId, date)
  }

  /** Every booking's interval is non-empty. */
  predicate TimesWellFormed(bookings: seq<Booking>)
  {
    forall i :: 0 <= i < |bookings| ==> bookings[i].startTime < bookings[i].endTime
  }

  /**
   * For non-empty intervals the three patterns are exactly the half-open
   * overlap of [start, end) intervals; in particular a booking that ends
   * when the other starts does not overlap it.
   */
  lemma OverlapIsHalfOpen(existing: Booking, startTime: Minutes, endTime: Minutes)
    requires existing.startTime < existing.endTime && startTime < endTime
    ensures Overlaps(existing, startTime, endTime) <==> existing.startTime < endTime && startTime < existing.endTime
  {
  }

  /**
   * For an empty new interval at time `t` the three patterns flag every
   * non-empty booking whose closed interval holds `t`, its two ends
   * included, although an empty interval overlaps nothing half-open.
   */
  lemma EmptyIntervalStillOverlaps(existing: Booking, t: Minutes)
    requires existing.startTime < existing.endTime
    ensures Overlaps(existing, t, t) <==> existing.startTime <= t <= existing.endTime
  {
  }

  /**
   * `isRoomAvailable` answers true exactly when no booking outside the
   * excluded series holds the same room on the same date with an
   * overlapping half-open interval, and the room is not an office whose
   * referent has a leave covering the date.
   */
  lemma {:induction false} AvailabilityCharacterised(s: State, roomId: string, date: Date, startTime: Minutes,
                                                     endTime: Minutes, excludeBookingId: Option<string>)
    requires TimesWellFormed(s.bookings) && startTime < endTime
    ensures RoomAvailable(s, roomId, date, startTime, endTime, excludeBookingId) <==>
      (forall i :: 0 <= i < |s.bookings| && s.bookings[i].roomId == roomId && s.bookings[i].date == date
                   && !Excluded(s.bookings[i], excludeBookingId)
                   ==> s.bookings[i].endTime <= startTime || endTime <= s.bookings[i].startTime)
      && !(FindRoom(s.rooms, roomId).Some? && FindRoom(s.rooms, roomId).value.kind == Office
           && exists l :: l in s.leaves && l.referentId == roomId
                          && OnOrBefore(l.startDate, date) && OnOrBefore(date, l.endDate))
  {
    forall i | 0 <= i < |s.bookings|
      ensures Overlaps(s.bookings[i], startTime, endTime) <==>
              s.bookings[i].startTime < endTime && startTime < s.bookings[i].endTime
    {
      OverlapIsHalfOpen(s.bookings[i], startTime, endTime);
    }
    assert LeaveCovers(s.leaves, roomId, date) <==>
      exists l :: l in s.leaves && l.referentId == roomId && OnOrBefore(l.startDate, date) && OnOrBefore(date, l.endDate);
  }

  /** Leaves are consulted for offices only: for a training room or an unknown id they change nothing. */
  lemma LeavesOnlyBlockOffices(s: State, otherLeaves: seq<Leave>, roomId: string, date: Date, startTime: Minutes,
                               endTime: Minutes, excludeBookingId: Option<string>)
    requires FindRoom(s.rooms, roomId).None? || FindRoom(s.rooms, roomId).value.kind == Training
    ensures RoomAvailable(s, roomId, date, startTime, endTime, excludeBookingId)
        == RoomAvailable(s.(leaves := otherLeaves), roomId, date, startTime, endTime, excludeBookingId)
        == !HasConflict(s.bookings, roomId, date, startTime, endTime, excludeBookingId)
  {
  }

  /** An absent exclude id and an empty one both exclude nothing. */
  lemma EmptyExcludeIgnoresNothing(b: Booking)
    ensures !Excluded(b, None) && !Excluded(b, Some(""))
  {
  }

  // ---------------------------------------------------------------------------
  // Recurring expansion
  // ---------------------------------------------------------------------------

  /** The next candidate date of a series: +1 day, +7 days, +1 month or +1 year. */
  function Step(d: Date, pattern: Recurrence): (r: Date)
    ensures Before(d, r)
  {
    match pattern
    case Daily => BeforeIffEarlierDayNumber(d, AddDays(d, 1)); AddDays(d, 1)
    case Weekly => BeforeIffEarlierDayNumber(d, AddDays(d, 7)); AddDays(d, 7)
    case Monthly => AddMonth(d)
    case Yearly => AddYear(d)
  }

  /** The loop of `addBooking` stops only when its date advances, that is when a pattern is set. */
  predicate RecurrenceTerminates(b: Booking)
  {
    b.isRecurring && b.recurrenceEndDate.Some? && OnOrBefore(b.date, b.recurrenceEndDate.value)
    ==> b.recurrencePattern.Some?
  }

  /** `addBooking` expands the booking into a series when it is recurring and has an end date. */
  predicate ExpandsSeries(b: Booking)
  {
    b.isRecurring && b.recurrenceEndDate.Some?
  }

  /** The candidate dates from `current` on: `current`, one step later, and so on while not after `end`. */
  function Occurrences(current: Date, end: Date, pattern: Option<Recurrence>): seq<Date>
    requires OnOrBefore(current, end) ==> pattern.Some?
    decreases end.year - current.year, 12 - current.month, 31 - current.day
  {
    if OnOrBefore(current, end) then [current] + Occurrences(Step(current, pattern.value), end, pattern)
    else []
  }

  /** A candidate date is skipped when it conflicts with a booking held before the call, or falls in a leave. */
  predicate Skipped(s: State, b: Booking, date: Date)
  {
    HasConflict(s.bookings, b.roomId, date, b.startTime, b.endTime, None)
    || ReferentOnLeave(s.rooms, s.leaves, b.roomId, date)
  }

  /** The occurrence of `b` on `date`: every field copied, the id suffixed with the date. */
  function Occurrence(b: Booking, date: Date): Booking
  {
    b.(id := b.id + "-" + FormatDate(date), date := date)
  }

  /** The occurrences appended for the candidate dates `dates`. */
  function Expansion(s: State, b: Booking, dates: seq<Date>): seq<Booking>
  {
    if dates == [] then []
    else (if Skipped(s, b, dates[0]) then [] else [Occurrence(b, dates[0])]) + Expansion(s, b, dates[1..])
  }

  /** `addBooking(booking)`. */
  function WithBooking(s: State, b: Booking): State
    requires RecurrenceTerminates(b)
  {
    if ExpandsSeries(b) then
      s.(bookings := s.bookings + Expansion(s, b, Occurrences(b.date, b.recurrenceEndDate.value, b.recurrencePattern)))
    else
      s.(bookings := s.bookings + [b])
  }

  /**
   * The candidate dates are the stepped sequence from `current` up to `end`:
   * the first is `current`, each next one is one step later, all lie within
   * [current, end], and the step after the last passes `end`.
   */
  lemma {:induction false} OccurrencesStepped(current: Date, end: Date, pattern: Option<Recurrence>)
    requires OnOrBefore(current, end) ==> pattern.Some?
    ensures var ds := Occurrences(current, end, pattern);
      (ds == [] <==> Before(end, current))
      && (ds != [] ==> ds[0] == current && Before(end, Step(ds[|ds| - 1], pattern.value)))
      && (forall i :: 0 <= i < |ds| ==> OnOrBefore(current, ds[i]) && OnOrBefore(ds[i], end))
      && (forall i :: 0 <= i < |ds| - 1 ==> ds[i + 1] == Step(ds[i], pattern.value))
    decreases end.year - current.year, 12 - current.month, 31 - current.day
  {
    if OnOrBefore(current, end) {
      var next := Step(current, pattern.value);
      OccurrencesStepped(next, end, pattern);
      var rest := Occurrences(next, end, pattern);
      var ds := Occurrences(current, end, pattern);
      assert ds == [current] + rest;
      forall i | 0 <= i < |ds|
        ensures OnOrBefore(current, ds[i]) && OnOrBefore(ds[i], end)
      {
        if i > 0 {
          assert ds[i] == rest[i - 1];
          OnOrBeforeTransitive(current, next, ds[i]);
        }
      }
    }
  }

  /** The candidate dates strictly increase. */
  lemma {:induction false} OccurrencesIncrease(current: Date, end: Date, pattern: Option<Recurrence>)
    requires OnOrBefore(current, end) ==> pattern.Some?
    ensures var ds := Occurrences(current, end, pattern);
      forall i, j :: 0 <= i < j < |ds| ==> Before(ds[i], ds[j])
    decreases end.year - current.year, 12 - current.month, 31 - current.day
  {
    if OnOrBefore(current, end) {
      var next := Step(current, pattern.value);
      OccurrencesIncrease(next, end, pattern);
      OccurrencesStepped(next, end, pattern);
      var rest := Occurrences(next, end, pattern);
      var ds := Occurrences(current, end, pattern);
      assert ds == [current] + rest;
      forall i, j | 0 <= i < j < |ds|
        ensures Before(ds[i], ds[j])
      {
        if i == 0 {
          assert OnOrBefore(next, rest[j - 1]);
        } else {
          assert ds[i] == rest[i - 1] && ds[j] == rest[j - 1];
        }
      }
    }
  }

  /**
   * The expansion appends exactly the occurrences of the candidate dates that
   * are not skipped: each appended booking is the occurrence of one such
   * date, and each such date has its occurrence appended.
   */
  lemma {:induction false} ExpansionMembers(s: State, b: Booking, dates: seq<Date>)
    ensures var e := Expansion(s, b, dates);
      (forall k :: 0 <= k < |e| ==> e[k] == Occurrence(b, e[k].date) && e[k].date in dates && !Skipped(s, b, e[k].date))
      && (forall d :: d in dates && !Skipped(s, b, d) ==> Occurrence(b, d) in e)
  {
    if dates != [] {
      ExpansionMembers(s, b, dates[1..]);
      var rest := Expansion(s, b, dates[1..]);
      var e := Expansion(s, b, dates);
      if !Skipped(s, b, dates[0]) {
        assert e == [Occurrence(b, dates[0])] + rest;
        forall k | 0 <= k < |e|
          ensures e[k] == Occurrence(b, e[k].date) && e[k].date in dates && !Skipped(s, b, e[k].date)
        {
          if k > 0 {
            assert e[k] == rest[k - 1];
          }
        }
      } else {
        assert e == rest;
      }
      forall d | d in dates && !Skipped(s, b, d)
        ensures Occurrence(b, d) in e
      {
        if d != dates[0] {
          assert d in dates[1..];
        }
      }
    }
  }

  /** When every candidate date is after `x`, so is every appended occurrence's date. */
  lemma {:induction false} ExpansionAfter(s: State, b: Booking, dates: seq<Date>, x: Date)
    requires forall i :: 0 <= i < |dates| ==> Before(x, dates[i])
    ensures var e := Expansion(s, b, dates);
      forall k :: 0 <= k < |e| ==> Before(x, e[k].date)
  {
    if dates != [] {
      ExpansionAfter(s, b, dates[1..], x);
      var rest := Expansion(s, b, dates[1..]);
      var settled := if Skipped(s, b, dates[0]) then [] else [Occurrence(b, dates[0])];
      assert dates == [dates[0]] + dates[1..];
      ExpansionCons(s, b, dates[0], dates[1..]);
      var e := Expansion(s, b, dates);
      assert e == settled + rest;
      forall k | 0 <= k < |e|
        ensures Before(x, e[k].date)
      {
        if k < |settled| {
          assert e[k] == Occurrence(b, dates[0]);
        } else {
          assert e[k] == rest[k - |settled|];
        }
      }
    }
  }

  /** A booking dated before every booking of an increasing list keeps the list increasing in front of it. */
  lemma PrependKeepsIncreasing(first: Booking, rest: seq<Booking>)
    requires forall i, j :: 0 <= i < j < |rest| ==> Before(rest[i].date, rest[j].date)
    requires forall k :: 0 <= k < |rest| ==> Before(first.date, rest[k].date)
    ensures var e := [first] + rest;
      forall i, j :: 0 <= i < j < |e| ==> Before(e[i].date, e[j].date)
  {
    var e := [first] + rest;
    forall i, j | 0 <= i < j < |e|
      ensures Before(e[i].date, e[j].date)
    {
      assert e[j] == rest[j - 1];
      if i > 0 {
        assert e[i] == rest[i - 1];
      }
    }
  }

  /** Occurrences are appended in the order of their dates. */
  lemma {:induction false} ExpansionIncreases(s: State, b: Booking, dates: seq<Date>)
    requires forall i, j :: 0 <= i < j < |dates| ==> Before(dates[i], dates[j])
    ensures var e := Expansion(s, b, dates);
      forall i, j :: 0 <= i < j < |e| ==> Before(e[i].date, e[j].date)
  {
    if dates != [] {
      var later := dates[1..];
      forall i, j | 0 <= i < j < |later|
        ensures Before(later[i], later[j])
      {
        assert later[i] == dates[i + 1] && later[j] == dates[j + 1];
      }
      forall i | 0 <= i < |later|
        ensures Before(dates[0], later[i])
      {
        assert later[i] == dates[i + 1];
      }
      ExpansionIncreases(s, b, later);
      ExpansionAfter(s, b, later, dates[0]);
      assert dates == [dates[0]] + later;
      ExpansionCons(s, b, dates[0], later);
      if !Skipped(s, b, dates[0]) {
        PrependKeepsIncreasing(Occurrence(b, dates[0]), Expansion(s, b, later));
      }
    }
  }

  /** A candidate date has its occurrence appended exactly when it is not skipped. */
  lemma ExpansionExactly(s: State, b: Booking, dates: seq<Date>)
    ensures var e := Expansion(s, b, dates);
      forall d :: d in dates ==> (Occurrence(b, d) in e <==> !Skipped(s, b, d))
  {
    var e := Expansion(s, b, dates);
    ExpansionMembers(s, b, dates);
    forall d | d in dates && Occurrence(b, d) in e
      ensures !Skipped(s, b, d)
    {
      var k :| 0 <= k < |e| && e[k] == Occurrence(b, d);
      ExpansionMemberAt(s, b, dates, k);
    }
  }

  /** The `k`-th appended booking is the occurrence of a candidate date that is not skipped. */
  lemma ExpansionMemberAt(s: State, b: Booking, dates: seq<Date>, k: nat)
    requires k < |Expansion(s, b, dates)|
    ensures var x := Expansion(s, b, dates)[k];
      x == Occurrence(b, x.date) && x.date in dates && !Skipped(s, b, x.date)
  {
    ExpansionMembers(s, b, dates);
  }

  /** Unfolding the expansion by one candidate date. */
  lemma ExpansionCons(s: State, b: Booking, d: Date, later: seq<Date>)
    ensures Expansion(s, b, [d] + later)
         == (if Skipped(s, b, d) then [] else [Occurrence(b, d)]) + Expansion(s, b, later)
  {
    assert ([d] + later)[1..] == later;
  }

  /** The candidate dates from a date on or before the end: that date, then those from the next step. */
  lemma OccurrencesCons(current: Date, end: Date, pattern: Recurrence)
    requires OnOrBefore(current, end)
    ensures Occurrences(current, end, Some(pattern)) == [current] + Occurrences(Step(current, pattern), end, Some(pattern))
  {
  }

  /** One turn of `addBooking`'s loop: the date `current` is settled, the rest is still to expand. */
  lemma ExpansionAdvances(s: State, b: Booking, done: seq<Booking>, current: Date, end: Date)
    requires OnOrBefore(current, end) && b.recurrencePattern.Some?
    ensures var next := Step(current, b.recurrencePattern.value);
      done + Expansion(s, b, Occurrences(current, end, b.recurrencePattern))
      == (done + (if Skipped(s, b, current) then [] else [Occurrence(b, current)]))
         + Expansion(s, b, Occurrences(next, end, b.recurrencePattern))
  {
    var later := Occurrences(Step(current, b.recurrencePattern.value), end, b.recurrencePattern);
    OccurrencesCons(current, end, b.recurrencePattern.value);
    ExpansionCons(s, b, current, later);
    var settled := if Skipped(s, b, current) then [] else [Occurrence(b, current)];
    var rest := Expansion(s, b, later);
    AppendAssoc(done, settled, rest);
  }

  /**
   * `addBooking` on a recurring booking with an end date keeps the old
   * bookings as an unchanged prefix and appends, in increasing date order,
   * the occurrence (id `booking.id + "-" + date`, every other field copied)
   * of each stepped date from `booking.date` up to the end date exactly when
   * that date neither conflicts with a booking held before the call nor
   * falls in a leave of the office; a start after the end appends nothing.
   */
  lemma RecurringAddBooking(s: State, b: Booking)
    requires RecurrenceTerminates(b) && ExpandsSeries(b)
    ensures var t := WithBooking(s, b).bookings;
      var ds := Occurrences(b.date, b.recurrenceEndDate.value, b.recurrencePattern);
      var added := t[|s.bookings|..];
      |s.bookings| <= |t| && t == s.bookings + added
      && (forall k :: 0 <= k < |added| ==>
            added[k] == Occurrence(b, added[k].date) && added[k].date in ds && !Skipped(s, b, added[k].date))
      && (forall d :: d in ds ==> (Occurrence(b, d) in added <==> !Skipped(s, b, d)))
      && (forall k, l :: 0 <= k < l < |added| ==> Before(added[k].date, added[l].date))
      && (Before(b.recurrenceEndDate.value, b.date) ==> added == [])
      && WithBooking(s, b).(bookings := s.bookings) == s
  {
    var ds := Occurrences(b.date, b.recurrenceEndDate.value, b.recurrencePattern);
    var e := Expansion(s, b, ds);
    var t := WithBooking(s, b).bookings;
    assert t[|s.bookings|..] == e;
    ExpansionMembers(s, b, ds);
    ExpansionExactly(s, b, ds);
    OccurrencesIncrease(b.date, b.recurrenceEndDate.value, b.recurrencePattern);
    OccurrencesStepped(b.date, b.recurrenceEndDate.value, b.recurrencePattern);
    ExpansionIncreases(s, b, ds);
  }

  /** A single booking, or a recurring one without an end date, is appended as given, unchecked. */
  lemma SingleAddBooking(s: State, b: Booking)
    requires !ExpandsSeries(b)
    ensures WithBooking(s, b).bookings == s.bookings + [b]
    ensures WithBooking(s, b).(bookings := s.bookings) == s
  {
  }

  // ---------------------------------------------------------------------------
  // Removing a booking or a series
  // ---------------------------------------------------------------------------

  /** `removeBooking(id)`. */
  function WithoutBooking(s: State, id: string): State
  {
    s.(bookings := Filter(s.bookings, (b: Booking) => !InSeries(b.id, id)))
  }

  /**
   * `removeBooking(id)` keeps, in their order, exactly the bookings whose id
   * is neither `id` nor starts with `id + "-"`, and nothing else changes.
   */
  lemma RemoveBookingKeeps(s: State, id: string, front: seq<Booking>, back: seq<Booking>)
    requires s.bookings == front + back
    ensures var t := WithoutBooking(s, id);
      (forall b :: b in t.bookings <==> b in s.bookings && b.id != id && !(id + "-" <= b.id))
      && t.bookings == WithoutBooking(s.(bookings := front), id).bookings + WithoutBooking(s.(bookings := back), id).bookings
      && t.(bookings := s.bookings) == s
  {
    FilterConcat(front, back, (b: Booking) => !InSeries(b.id, id));
  }

  /** Removing the same id twice removes nothing more. */
  lemma RemoveBookingIdempotent(s: State, id: string)
    ensures WithoutBooking(WithoutBooking(s, id), id) == WithoutBooking(s, id)
  {
    FilterIdempotent(s.bookings, (b: Booking) => !InSeries(b.id, id));
  }

  /** Removing "1" removes "1" and its occurrences "1-…" but spares "12". */
  lemma RemoveBookingSparesLongerIds()
    ensures !InSeries("12", "1") && InSeries("1", "1") && InSeries("1-2024-01-08", "1")
  {
    assert ("1" + "-")[1] != "12"[1];
    assert "1-2024-01-08"[..2] == "1" + "-";
  }

  /** Everything `addBooking` appends belongs to the series of the booking's id. */
  lemma AddedBookingsInSeries(s: State, b: Booking)
    requires RecurrenceTerminates(b)
    ensures var t := WithBooking(s, b).bookings;
      |s.bookings| <= |t| && t == s.bookings + t[|s.bookings|..]
      && forall k :: |s.bookings| <= k < |t| ==> InSeries(t[k].id, b.id)
  {
    var t := WithBooking(s, b).bookings;
    if ExpandsSeries(b) {
      var e := Expansion(s, b, Occurrences(b.date, b.recurrenceEndDate.value, b.recurrencePattern));
      ExpansionMembers(s, b, Occurrences(b.date, b.recurrenceEndDate.value, b.recurrencePattern));
      assert t == s.bookings + e;
      forall k | |s.bookings| <= k < |t|
        ensures InSeries(t[k].id, b.id)
      {
        var x := e[k - |s.bookings|];
        assert t[k] == x;
        assert x.id == (b.id + "-") + FormatDate(x.date);
      }
    }
  }

  /** Removing a booking's id undoes `addBooking`, whether it appended one booking or a series. */
  lemma RemoveSeriesUndoesAdd(s: State, b: Booking)
    requires RecurrenceTerminates(b)
    ensures WithoutBooking(WithBooking(s, b), b.id) == WithoutBooking(s, b.id)
  {
    var keep := (x: Booking) => !InSeries(x.id, b.id);
    var t := WithBooking(s, b).bookings;
    AddedBookingsInSeries(s, b);
    var added := t[|s.bookings|..];
    assert forall k :: 0 <= k < |added| ==> added[k] == t[|s.bookings| + k];
    FilterConcat(s.bookings, added, keep);
    FilterDropsAll(added, keep);
  }

  /**
   * Checking availability while excluding a series' id (as when the series is
   * edited) sees the store as it was before `addBooking` added the series.
   */
  lemma ExcludingSeriesIgnoresIt(s: State, b: Booking, roomId: string, date: Date, startTime: Minutes,
                                 endTime: Minutes)
    requires RecurrenceTerminates(b) && b.id != ""
    ensures RoomAvailable(WithBooking(s, b), roomId, date, startTime, endTime, Some(b.id))
        == RoomAvailable(s, roomId, date, startTime, endTime, Some(b.id))
  {
    var t := WithBooking(s, b).bookings;
    var n := |s.bookings|;
    AddedBookingsInSeries(s, b);
    assert t[..n] == s.bookings;
    if HasConflict(t, roomId, date, startTime, endTime, Some(b.id)) {
      var i :| 0 <= i < |t| && !Excluded(t[i], Some(b.id)) && Conflicts(t[i], roomId, date, startTime, endTime);
      assert i < n && t[i] == s.bookings[i];
    }
  }

  // ---------------------------------------------------------------------------
  // Selection and training types
  // ---------------------------------------------------------------------------

  /** `toggleSelectedRoom(roomId)`: drop every copy of it when selected, otherwise append it. */
  function Toggled(selected: seq<string>, roomId: string): seq<string>
  {
    if roomId in selected then Filter(selected, (x: string) => x != roomId) else selected + [roomId]
  }

  /** Toggling flips whether the room is selected and leaves every other room as it was. */
  lemma ToggleFlips(selected: seq<string>, roomId: string)
    ensures roomId in Toggled(selected, roomId) <==> roomId !in selected
    ensures forall x :: x != roomId ==> (x in Toggled(selected, roomId) <==> x in selected)
  {
    if roomId in selected {
      var r := Toggled(selected, roomId);
      forall x | x != roomId && x in selected
        ensures x in r
      {
        var i :| 0 <= i < |selected| && selected[i] == x;
      }
    }
  }

  /** Toggling an unselected room twice restores the selection. */
  lemma ToggleTwiceRestores(selected: seq<string>, roomId: string)
    requires roomId !in selected
    ensures Toggled(Toggled(selected, roomId), roomId) == selected
  {
    var keep := (x: string) => x != roomId;
    FilterConcat(selected, [roomId], keep);
    FilterKeepsAll(selected, keep);
    FilterDropsAll([roomId], keep);
  }

  /** `addTrainingType(type)`. */
  function WithTrainingType(s: State, t: TrainingType): State
  {
    s.(customTrainingTypes := s.customTrainingTypes + [t])
  }

  /** `removeTrainingType(id)`. */
  function WithoutTrainingType(s: State, id: string): State
  {
    s.(customTrainingTypes := Filter(s.customTrainingTypes, (t: TrainingType) => t.id != id))
  }

  /** Removing a training type with a fresh id right after adding it restores the state. */
  lemma RemoveTrainingTypeUndoesAdd(s: State, t: TrainingType)
    requires forall i :: 0 <= i < |s.customTrainingTypes| ==> s.customTrainingTypes[i].id != t.id
    ensures WithoutTrainingType(WithTrainingType(s, t), t.id) == s
  {
    var keep := (x: TrainingType) => x.id != t.id;
    FilterConcat(s.customTrainingTypes, [t], keep);
    FilterKeepsAll(s.customTrainingTypes, keep);
    FilterDropsAll([t], keep);
  }

  // ---------------------------------------------------------------------------
  // Rooms
  // ---------------------------------------------------------------------------

  /**
   * The room selected after removing room `id`: unchanged unless it was `id`;
   * then the first other room of the old list, or "salle1" when there is none
   * or its id is empty.
   */
  function SelectedAfterRemoval(rooms: seq<Room>, selected: string, id: string): string
  {
    if selected != id then selected
    else
      match Find(rooms, (r: Room) => r.id != id)
      case Some(r) => if r.id != "" then r.id else "salle1"
      case None => "salle1"
  }

  /** `removeRoom(id)`: the room goes, with its bookings, its leaves and its selection. */
  function WithoutRoom(s: State, id: string): State
  {
    s.(rooms := Filter(s.rooms, (r: Room) => r.id != id),
       selectedRoom := SelectedAfterRemoval(s.rooms, s.selectedRoom, id),
       selectedRooms := Filter(s.selectedRooms, (x: string) => x != id),
       bookings := Filter(s.bookings, (b: Booking) => b.roomId != id),
       leaves := Filter(s.leaves, (l: Leave) => l.referentId != id))
  }

  /**
   * Removing a room removes exactly the rooms with that id, the bookings of
   * that room, the leaves of that referent and that id from the selection;
   * collaborators and training types stay.
   */
  lemma RemoveRoomCascades(s: State, id: string)
    ensures var t := WithoutRoom(s, id);
      (forall r :: r in t.rooms <==> r in s.rooms && r.id != id)
      && (forall b :: b in t.bookings <==> b in s.bookings && b.roomId != id)
      && (forall l :: l in t.leaves <==> l in s.leaves && l.referentId != id)
      && (forall x :: x in t.selectedRooms <==> x in s.selectedRooms && x != id)
      && t.collaborators == s.collaborators && t.customTrainingTypes == s.customTrainingTypes
  {
  }

  /**
   * The selected room changes only when it was the removed one. It then
   * becomes the first room of the old list with another id, or "salle1"
   * when there is none or that room's id is empty.
   */
  lemma RemoveRoomSelection(s: State, id: string)
    ensures var t := WithoutRoom(s, id);
      (s.selectedRoom != id ==> t.selectedRoom == s.selectedRoom)
      && (forall k :: 0 <= k < |s.rooms| && s.rooms[k].id != id
            && (forall j :: 0 <= j < k ==> s.rooms[j].id == id) && s.selectedRoom == id
            ==> t.selectedRoom == (if s.rooms[k].id != "" then s.rooms[k].id else "salle1"))
      && ((forall k :: 0 <= k < |s.rooms| ==> s.rooms[k].id == id) && s.selectedRoom == id
          ==> t.selectedRoom == "salle1")
  {
    var p := (r: Room) => r.id != id;
    forall k | 0 <= k < |s.rooms| && s.rooms[k].id != id
        && (forall j :: 0 <= j < k ==> s.rooms[j].id == id) && s.selectedRoom == id
      ensures SelectedAfterRemoval(s.rooms, s.selectedRoom, id)
              == (if s.rooms[k].id != "" then s.rooms[k].id else "salle1")
    {
      var f := Find(s.rooms, p);
      assert p(s.rooms[k]);
      var i :| 0 <= i < |s.rooms| && s.rooms[i] == f.value && p(s.rooms[i]) && IsFirst(s.rooms, p, i);
      assert i == k;
    }
  }

  /** A second `removeRoom` of the same id changes nothing. */
  lemma RemoveRoomIdempotent(s: State, id: string)
    ensures WithoutRoom(WithoutRoom(s, id), id) == WithoutRoom(s, id)
  {
    var t := WithoutRoom(s, id);
    FilterIdempotent(s.rooms, (r: Room) => r.id != id);
    FilterIdempotent(s.selectedRooms, (x: string) => x != id);
    FilterIdempotent(s.bookings, (b: Booking) => b.roomId != id);
    FilterIdempotent(s.leaves, (l: Leave) => l.referentId != id);
    FindInFiltered(s.rooms, (r: Room) => r.id != id);
  }

  /** `addRoom(room)`. */
  function WithRoom(s: State, room: Room): State
  {
    s.(rooms := s.rooms + [room])
  }

  /** `updateRoom(id, updates)`: every room with that id gets the update spread over it. */
  function WithRoomUpdated(s: State, id: string, u: RoomUpdate): State
  {
    s.(rooms := Map(s.rooms, (r: Room) => if r.id == id then PatchRoom(r, u) else r))
  }

  /**
   * An update keeps the number and order of rooms, changes only rooms whose
   * id matches, and is a no-op for an unknown id.
   */
  lemma UpdateRoomTouchesOnlyMatches(s: State, id: string, u: RoomUpdate)
    ensures var t := WithRoomUpdated(s, id, u);
      |t.rooms| == |s.rooms|
      && (forall i :: 0 <= i < |s.rooms| ==> t.rooms[i] == if s.rooms[i].id == id then PatchRoom(s.rooms[i], u) else s.rooms[i])
      && t.(rooms := s.rooms) == s
      && ((forall i :: 0 <= i < |s.rooms| ==> s.rooms[i].id != id) ==> t == s)
  {
    var t := WithRoomUpdated(s, id, u);
    if forall i :: 0 <= i < |s.rooms| ==> s.rooms[i].id != id {
      assert t.rooms == s.rooms;
    }
  }

  /**
   * The room form's updates (name, kind and collaborator all given, no
   * collaborator for a training room, the id untouched) and its additions
   * (a fresh id) keep the room invariant.
   */
  lemma RoomFormKeepsWellFormed(s: State, id: string, u: RoomUpdate, room: Room)
    requires RoomsWellFormed(s.rooms)
    requires u.id.Keep? && u.kind.Set? && u.collaboratorId.Set?
    requires u.kind.value == Training ==> u.collaboratorId.value.None?
    requires forall r :: r in s.rooms ==> r.id != room.id
    requires room.kind == Training ==> room.collaboratorId.None?
    ensures RoomsWellFormed(WithRoomUpdated(s, id, u).rooms)
    ensures RoomsWellFormed(WithRoom(s, room).rooms)
  {
    var t := WithRoom(s, room).rooms;
    forall i, j | 0 <= i < j < |t|
      ensures t[i].id != t[j].id
    {
      if j == |s.rooms| {
        assert t[i] in s.rooms;
      }
    }
  }

  /** Removing a room keeps the room invariant. */
  lemma RemoveRoomKeepsWellFormed(s: State, id: string)
    requires RoomsWellFormed(s.rooms)
    ensures RoomsWellFormed(WithoutRoom(s, id).rooms)
  {
    var rel := (a: Room, b: Room) => a.id != b.id;
    assert Pairwise(s.rooms, rel);
    FilterKeepsPairwise(s.rooms, (r: Room) => r.id != id, rel);
    var t := WithoutRoom(s, id).rooms;
    forall i | 0 <= i < |t| && t[i].kind == Training
      ensures t[i].collaboratorId.None?
    {
      var k :| 0 <= k < |s.rooms| && s.rooms[k] == t[i];
    }
  }

  // ---------------------------------------------------------------------------
  // Leaves
  // ---------------------------------------------------------------------------

  /** `addLeave(leave)`. */
  function WithLeave(s: State, leave: Leave): State
  {
    s.(leaves := s.leaves + [leave])
  }

  /** `updateLeave(id, updates)`. */
  function WithLeaveUpdated(s: State, id: string, u: LeaveUpdate): State
  {
    s.(leaves := Map(s.leaves, (l: Leave) => if l.id == id then PatchLeave(l, u) else l))
  }

  /** `removeLeave(id)`. */
  function WithoutLeave(s: State, id: string): State
  {
    s.(leaves := Filter(s.leaves, (l: Leave) => l.id != id))
  }

  /** A leave update changes only leaves whose id matches and is a no-op for an unknown id. */
  lemma UpdateLeaveTouchesOnlyMatches(s: State, id: string, u: LeaveUpdate)
    ensures var t := WithLeaveUpdated(s, id, u);
      |t.leaves| == |s.leaves|
      && (forall i :: 0 <= i < |s.leaves| ==> t.leaves[i] == if s.leaves[i].id == id then PatchLeave(s.leaves[i], u) else s.leaves[i])
      && t.(leaves := s.leaves) == s
      && ((forall i :: 0 <= i < |s.leaves| ==> s.leaves[i].id != id) ==> t == s)
  {
    var t := WithLeaveUpdated(s, id, u);
    if forall i :: 0 <= i < |s.leaves| ==> s.leaves[i].id != id {
      assert t.leaves == s.leaves;
    }
  }

  /** Removing a leave with a fresh id right after adding it restores the state. */
  lemma RemoveLeaveUndoesAdd(s: State, leave: Leave)
    requires forall i :: 0 <= i < |s.leaves| ==> s.leaves[i].id != leave.id
    ensures WithoutLeave(WithLeave(s, leave), leave.id) == s
  {
    var keep := (l: Leave) => l.id != leave.id;
    FilterConcat(s.leaves, [leave], keep);
    FilterKeepsAll(s.leaves, keep);
    FilterDropsAll([leave], keep);
  }

  /** Adding a leave to an office blacks the covered days out (`RemoveLeaveUndoesAdd` states the removal). */
  lemma AddedLeaveBlocksOffice(s: State, leave: Leave, date: Date, startTime: Minutes, endTime: Minutes)
    requires FindRoom(s.rooms, leave.referentId).Some? && FindRoom(s.rooms, leave.referentId).value.kind == Office
    requires OnOrBefore(leave.startDate, date) && OnOrBefore(date, leave.endDate)
    ensures !RoomAvailable(WithLeave(s, leave), leave.referentId, date, startTime, endTime, None)
  {
    var t := WithLeave(s, leave);
    assert t.leaves[|s.leaves|] == leave;
  }

  // ---------------------------------------------------------------------------
  // Collaborators
  // ---------------------------------------------------------------------------

  /** `addCollaborator(collaborator)`. */
  function WithCollaborator(s: State, c: Collaborator): State
  {
    s.(collaborators := s.collaborators + [c])
  }

  /** `updateCollaborator(id, updates)`. */
  function WithCollaboratorUpdated(s: State, id: string, u: CollaboratorUpdate): State
  {
    s.(collaborators := Map(s.collaborators, (c: Collaborator) => if c.id == id then PatchCollaborator(c, u) else c))
  }

  /** `removeCollaborator(id)`: the collaborator goes; the offices tied to it stay, untied. */
  function WithoutCollaborator(s: State, id: string): State
  {
    s.(collaborators := Filter(s.collaborators, (c: Collaborator) => c.id != id),
       rooms := Map(s.rooms, (r: Room) => if r.collaboratorId == Some(id) then r.(collaboratorId := None) else r))
  }

  /** A collaborator update changes only collaborators whose id matches and is a no-op for an unknown id. */
  lemma UpdateCollaboratorTouchesOnlyMatches(s: State, id: string, u: CollaboratorUpdate)
    ensures var t := WithCollaboratorUpdated(s, id, u);
      |t.collaborators| == |s.collaborators|
      && (forall i :: 0 <= i < |s.collaborators| ==>
            t.collaborators[i] == if s.collaborators[i].id == id then PatchCollaborator(s.collaborators[i], u) else s.collaborators[i])
      && t.(collaborators := s.collaborators) == s
      && ((forall i :: 0 <= i < |s.collaborators| ==> s.collaborators[i].id != id) ==> t == s)
  {
    var t := WithCollaboratorUpdated(s, id, u);
    if forall i :: 0 <= i < |s.collaborators| ==> s.collaborators[i].id != id {
      assert t.collaborators == s.collaborators;
    }
  }

  /**
   * Removing a collaborator removes no room: the rooms keep their number,
   * order and every field, except that exactly the rooms tied to it have
   * their collaborator cleared; no room is tied to it afterwards, and
   * nothing but the collaborators and the rooms changes.
   */
  lemma RemoveCollaboratorDetaches(s: State, id: string)
    ensures var t := WithoutCollaborator(s, id);
      |t.rooms| == |s.rooms|
      && (forall i :: 0 <= i < |s.rooms| ==>
            t.rooms[i] == if s.rooms[i].collaboratorId == Some(id) then s.rooms[i].(collaboratorId := None) else s.rooms[i])
      && (forall r :: r in t.rooms ==> r.collaboratorId != Some(id))
      && (forall c :: c in t.collaborators <==> c in s.collaborators && c.id != id)
      && t.(collaborators := s.collaborators, rooms := s.rooms) == s
  {
  }

  /**
   * Removing a collaborator with a fresh id right after adding it, before
   * any room is tied to it, restores the state.
   */
  lemma RemoveCollaboratorUndoesAdd(s: State, c: Collaborator)
    requires forall i :: 0 <= i < |s.collaborators| ==> s.collaborators[i].id != c.id
    requires forall i :: 0 <= i < |s.rooms| ==> s.rooms[i].collaboratorId != Some(c.id)
    ensures WithoutCollaborator(WithCollaborator(s, c), c.id) == s
  {
    var keep := (x: Collaborator) => x.id != c.id;
    FilterConcat(s.collaborators, [c], keep);
    FilterKeepsAll(s.collaborators, keep);
    FilterDropsAll([c], keep);
    assert WithoutCollaborator(WithCollaborator(s, c), c.id).rooms == s.rooms;
  }

  /** Removing a collaborator keeps the room invariant. */
  lemma RemoveCollaboratorKeepsWellFormed(s: State, id: string)
    requires RoomsWellFormed(s.rooms)
    ensures RoomsWellFormed(WithoutCollaborator(s, id).rooms)
  {
  }

  // ---------------------------------------------------------------------------
  // The store object
  // ---------------------------------------------------------------------------

  class BookingStore {
    var bookings: seq<Booking>
    var selectedRoom: string
    var selectedRooms: seq<string>
    var customTrainingTypes: seq<TrainingType>
    var rooms: seq<Room>
    var leaves: seq<Leave>
    var collaborators: seq<Collaborator>

    /** The seven collections as one value. */
    function Snapshot(): State
      reads this
    {
      State(bookings, selectedRoom, selectedRooms, customTrainingTypes, rooms, leaves, collaborators)
    }

    /** A first run starts from the seed state. */
    constructor ()
      ensures Snapshot() == Seed
    {
      bookings := [];
      selectedRoom := "salle1";
      selectedRooms := [];
      customTrainingTypes := DefaultTrainingTypes;
      rooms := DefaultRooms;
      leaves := [];
      collaborators := DefaultCollaborators;
    }

    /**
     * A recurring booking with an end date is expanded, one candidate date
     * per step, skipping dates that conflict with the bookings held before
     * the call or fall in a leave; any other booking is appended as given.
     */
    method AddBooking(booking: Booking)
      requires RecurrenceTerminates(booking)
      modifies this
      ensures Snapshot() == WithBooking(old(Snapshot()), booking)
    {
      if booking.isRecurring && booking.recurrenceEndDate.Some? {
        var newBookings := bookings;
        var endDate := booking.recurrenceEndDate.value;
        var currentDate := booking.date;
        ghost var s0 := Snapshot();
        ghost var all := Occurrences(booking.date, endDate, booking.recurrencePattern);
        while OnOrBefore(currentDate, endDate)
          invariant OnOrBefore(currentDate, endDate) ==> booking.recurrencePattern.Some?
          invariant Snapshot() == s0
          invariant newBookings + Expansion(s0, booking, Occurrences(currentDate, endDate, booking.recurrencePattern))
                    == s0.bookings + Expansion(s0, booking, all)
          decreases endDate.year - currentDate.year, 12 - currentDate.month, 31 - currentDate.day
        {
          var hasConflict := HasConflict(bookings, booking.roomId, currentDate, booking.startTime, booking.endTime, None);
          var room := FindRoom(rooms, booking.roomId);
          var isOnLeave := false;
          if room.Some? && room.value.kind == Office {
            isOnLeave := LeaveCovers(leaves, booking.roomId, currentDate);
          }
          ExpansionAdvances(s0, booking, newBookings, currentDate, endDate);
          assert hasConflict || isOnLeave <==> Skipped(s0, booking, currentDate);
          ghost var before := newBookings;
          if !hasConflict && !isOnLeave {
            newBookings := newBookings + [Occurrence(booking, currentDate)];
          } else {
            assert newBookings + [] == newBookings;
          }
          assert newBookings == before + (if Skipped(s0, booking, currentDate) then [] else [Occurrence(booking, currentDate)]);
          currentDate := Step(currentDate, booking.recurrencePattern.value);
        }
        assert Occurrences(currentDate, endDate, booking.recurrencePattern) == [];
        assert newBookings == s0.bookings + Expansion(s0, booking, all);
        bookings := newBookings;
      } else {
        bookings := bookings + [booking];
      }
    }

    method RemoveBooking(id: string)
      modifies this
      ensures Snapshot() == WithoutBooking(old(Snapshot()), id)
    {
      bookings := Filter(bookings, (b: Booking) => !InSeries(b.id, id));
    }

    method SetSelectedRoom(roomId: string)
      modifies this
      ensures Snapshot() == old(Snapshot()).(selectedRoom := roomId)
    {
      selectedRoom := roomId;
    }

    method SetSelectedRooms(roomIds: seq<string>)
      modifies this
      ensures Snapshot() == old(Snapshot()).(selectedRooms := roomIds)
    {
      selectedRooms := roomIds;
    }

    method ToggleSelectedRoom(roomId: string)
      modifies this
      ensures Snapshot() == old(Snapshot()).(selectedRooms := Toggled(old(selectedRooms), roomId))
    {
      selectedRooms := Toggled(selectedRooms, roomId);
    }

    method AddTrainingType(t: TrainingType)
      modifies this
      ensures Snapshot() == WithTrainingType(old(Snapshot()), t)
    {
      customTrainingTypes := customTrainingTypes + [t];
    }

    method RemoveTrainingType(id: string)
      modifies this
      ensures Snapshot() == WithoutTrainingType(old(Snapshot()), id)
    {
      customTrainingTypes := Filter(customTrainingTypes, (t: TrainingType) => t.id != id);
    }

    method AddRoom(room: Room)
      modifies this
      ensures Snapshot() == WithRoom(old(Snapshot()), room)
    {
      rooms := rooms + [room];
    }

    method UpdateRoom(id: string, updates: RoomUpdate)
      modifies this
      ensures Snapshot() == WithRoomUpdated(old(Snapshot()), id, updates)
    {
      rooms := Map(rooms, (r: Room) => if r.id == id then PatchRoom(r, updates) else r);
    }

    method RemoveRoom(id: string)
      modifies this
      ensures Snapshot() == WithoutRoom(old(Snapshot()), id)
    {
      var nextSelected := SelectedAfterRemoval(rooms, selectedRoom, id);
      rooms := Filter(rooms, (r: Room) => r.id != id);
      selectedRoom := nextSelected;
      selectedRooms := Filter(selectedRooms, (x: string) => x != id);
      bookings := Filter(bookings, (b: Booking) => b.roomId != id);
      leaves := Filter(leaves, (l: Leave) => l.referentId != id);
    }

    method AddLeave(leave: Leave)
      modifies this
      ensures Snapshot() == WithLeave(old(Snapshot()), leave)
    {
      leaves := leaves + [leave];
    }

    method UpdateLeave(id: string, updates: LeaveUpdate)
      modifies this
      ensures Snapshot() == WithLeaveUpdated(old(Snapshot()), id, updates)
    {
      leaves := Map(leaves, (l: Leave) => if l.id == id then PatchLeave(l, updates) else l);
    }

    method RemoveLeave(id: string)
      modifies this
      ensures Snapshot() == WithoutLeave(old(Snapshot()), id)
    {
      leaves := Filter(leaves, (l: Leave) => l.id != id);
    }

    method AddCollaborator(collaborator: Collaborator)
      modifies this
      ensures Snapshot() == WithCollaborator(old(Snapshot()), collaborator)
    {
      collaborators := collaborators + [collaborator];
    }

    method UpdateCollaborator(id: string, updates: CollaboratorUpdate)
      modifies this
      ensures Snapshot() == WithCollaboratorUpdated(old(Snapshot()), id, updates)
    {
      collaborators := Map(collaborators, (c: Collaborator) => if c.id == id then PatchCollaborator(c, updates) else c);
    }

    method RemoveCollaborator(id: string)
      modifies this
      ensures Snapshot() == WithoutCollaborator(old(Snapshot()), id)
    {
      var updatedRooms := Map(rooms, (r: Room) => if r.collaboratorId == Some(id) then r.(collaboratorId := None) else r);
      collaborators := Filter(collaborators, (c: Collaborator) => c.id != id);
      rooms := updatedRooms;
    }

    /**
     * `isRoomAvailable(roomId, date, startTime, endTime, excludeBookingId)`
     * on the current state: for well-formed times, free of overlapping
     * bookings outside the excluded series and, for an office, of its
     * referent's leaves.
     */
    function IsRoomAvailable(roomId: string, date: Date, startTime: Minutes, endTime: Minutes,
                             excludeBookingId: Option<string>): (available: bool)
      reads this
      ensures TimesWellFormed(bookings) && startTime < endTime ==>
        (available <==>
          (forall i :: 0 <= i < |bookings| && bookings[i].roomId == roomId && bookings[i].date == date
                       && !Excluded(bookings[i], excludeBookingId)
                       ==> bookings[i].endTime <= startTime || endTime <= bookings[i].startTime)
          && !(FindRoom(rooms, roomId).Some? && FindRoom(rooms, roomId).value.kind == Office
               && exists l :: l in leaves && l.referentId == roomId
                              && OnOrBefore(l.startDate, date) && OnOrBefore(date, l.endDate)))
    {
      if TimesWellFormed(bookings) && startTime < endTime then
        AvailabilityCharacterised(Snapshot(), roomId, date, startTime, endTime, excludeBookingId);
        RoomAvailable(Snapshot(), roomId, date, startTime, endTime, excludeBookingId)
      else
        RoomAvailable(Snapshot(), roomId, date, startTime, endTime, excludeBookingId)
    }
  }
}
