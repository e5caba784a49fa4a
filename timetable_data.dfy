/** The flat index sets the roster aggregator hands to the timetabling engine: the 18-tuple
    returned by `get_timetable_data(rooms=True)` (timetabler/models.py:779-780) and taken by
    `runtimetable_with_rooms_two_step` (timetabler/helpers.py:14-16).

    Names are the source's own keys: student names, subject codes, tutor names, room names,
    and timeslots as the string `day + " " + time`. The Python sets stored in SUBJECTMAPPING,
    TEACHERMAPPING and DAYS are duplicate-free sequences here, so that the programme's sums
    can run over them; TUTORAVAILABILITY is only ever queried for membership and stays a set. */
module TimetableData {
  import opened Seqs

  datatype TimetableData = TimetableData(
    students: seq<string>,                       // STUDENTS
    subjects: seq<string>,                       // SUBJECTS
    times: seq<string>,                          // TIMES
    day: seq<string>,                            // day
    days: map<string, seq<string>>,              // DAYS
    teachers: seq<string>,                       // TEACHERS
    subjectMapping: map<string, seq<string>>,    // SUBJECTMAPPING: subject -> enrolled students
    repeats: map<string, int>,                   // REPEATS
    teacherMapping: map<string, seq<string>>,    // TEACHERMAPPING: tutor -> taught subjects
    tutorAvailability: map<string, set<string>>, // TUTORAVAILABILITY: tutor -> timeslots
    maxClassSize: int,
    minClassSize: int,
    rooms: seq<string>,                          // ROOMS
    projectors: seq<string>,                     // PROJECTORS: subjects needing a projector
    projectorRooms: seq<string>,                 // PROJECTORROOMS
    numRoomsProjector: int,
    nonPreferredTimes: seq<string>,              // NONPREFERREDTIMES
    capacities: map<string, int>)                // CAPACITIES

  /** TEACHERMAPPING[m]. */
  function Taught(d: TimetableData, m: string): seq<string> {
    if m in d.teacherMapping then d.teacherMapping[m] else []
  }

  /** SUBJECTMAPPING[j]. */
  function Enrolled(d: TimetableData, j: string): seq<string> {
    if j in d.subjectMapping then d.subjectMapping[j] else []
  }

  /** REPEATS[j]. */
  function Repeats(d: TimetableData, j: string): int {
    if j in d.repeats then d.repeats[j] else 0
  }

  /** TUTORAVAILABILITY[m]. */
  function Available(d: TimetableData, m: string): set<string> {
    if m in d.tutorAvailability then d.tutorAvailability[m] else {}
  }

  /** DAYS[name]. */
  function DaySlots(d: TimetableData, name: string): seq<string> {
    if name in d.days then d.days[name] else []
  }

  /** CAPACITIES[n]. */
  function Capacity(d: TimetableData, n: string): int {
    if n in d.capacities then d.capacities[n] else 0
  }

  /** What the engine demands of its input: every dictionary lookup it makes succeeds.
      Without it the source stops with a KeyError (TEACHERMAPPING and TUTORAVAILABILITY at
      helpers.py:46 and 90, SUBJECTMAPPING and REPEATS at helpers.py:46 and 114 for a
      tutor's subject outside the current context, DAYS and the day-indexed variables at
      helpers.py:58 and 76, the timeslot variables at helpers.py:76 for a DAYS slot outside
      TIMES, the room variables at helpers.py:220 for a projector room outside ROOMS, and
      CAPACITIES at helpers.py:237). */
  ghost predicate WellFormed(d: TimetableData) {
    TutorsKnown(d) && TaughtKnown(d) && DaysKnown(d) && RoomsKnown(d)
  }

  /** Both tutor dictionaries have an entry for every tutor. */
  ghost predicate TutorsKnown(d: TimetableData) {
    forall m :: m in d.teachers ==> m in d.teacherMapping && m in d.tutorAvailability
  }

  /** Every subject a tutor teaches has an enrolment list and a repeat count. */
  ghost predicate TaughtKnown(d: TimetableData) {
    forall m, j :: m in d.teachers && j in Taught(d, m) ==> j in d.subjectMapping && j in d.repeats
  }

  /** `day` lists each day once, DAYS has exactly those days, and its slots are timeslots. */
  ghost predicate DaysKnown(d: TimetableData) {
    && NoDup(d.day)
    && d.days.Keys == Elems(d.day)
    && (forall name, k :: name in d.days && k in d.days[name] ==> k in d.times)
  }

  /** Projector rooms are rooms, and every room has a capacity. */
  ghost predicate RoomsKnown(d: TimetableData) {
    && (forall n :: n in d.projectorRooms ==> n in d.rooms)
    && (forall n :: n in d.rooms ==> n in d.capacities)
  }

  /** The index lists are duplicate-free. The aggregator guarantees this for TEACHERS and for
      the TEACHERMAPPING and SUBJECTMAPPING entries, which pass through `set`. TIMES repeats a
      key when two current timeslots share a day and a time, and ROOMS a name when two rooms
      share one (`Aggregator.AggregateDistinct`). Under this predicate every record the
      materialiser creates is created once. */
  ghost predicate Distinct(d: TimetableData) {
    && NoDup(d.teachers)
    && NoDup(d.times)
    && NoDup(d.rooms)
    && (forall m :: m in d.teachers ==> NoDup(Taught(d, m)))
    && (forall j :: j in d.subjectMapping ==> NoDup(d.subjectMapping[j]))
  }
}
