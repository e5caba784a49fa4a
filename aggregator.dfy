/** `get_timetable_data(rooms=True)` (timetabler/models.py:699-780): the roster of the current
    year, study period and timetable flattened into the engine's index sets.

    `TimetableDataOf` says what the aggregate is, `GetTimetableData` builds it with the
    source's loops, and the lemmas below say what the engine can rely on. Python's
    `list(set(...))` keeps the first occurrence here (`Dedup`); the order Python leaves is
    arbitrary, and no property below depends on it. */
module Aggregator {
  import opened Seqs
  import opened TimetableData
  import opened Roster

  /** appcfg (timetabler/config.py:55-57). */
  const MaxClassSize := 16
  const MinClassSize := 0
  const DefaultRoomCapacity := 20

  // ---------------------------------------------------------------------------------------
  // Column lookups. Outside the tables they give a default; under `Linked` they are never
  // asked for a missing row.

  function SubjectCode(r: Roster, s: nat): string {
    if s < |r.subjects| then r.subjects[s].subcode else ""
  }

  function SubjectRepeats(r: Roster, s: nat): int {
    if s < |r.subjects| then r.subjects[s].repeats else 0
  }

  /** `subject.needsprojector is True` */
  predicate NeedsProjector(r: Roster, s: nat) {
    s < |r.subjects| && r.subjects[s].needsProjector == Some(true)
  }

  /** The id of `subject.tutor`. */
  function TutorOf(r: Roster, s: nat): nat {
    if s < |r.subjects| && r.subjects[s].tutor.Some? then r.subjects[s].tutor.value else 0
  }

  function TutorName(r: Roster, t: nat): string {
    if t < |r.tutors| then r.tutors[t].name else ""
  }

  function AvailableTimes(r: Roster, t: nat): seq<nat> {
    if t < |r.tutors| then r.tutors[t].availableTimes else []
  }

  function StudentName(r: Roster, i: nat): string {
    if i < |r.students| then r.students[i].name else ""
  }

  function RoomName(r: Roster, n: nat): string {
    if n < |r.rooms| then r.rooms[n].name else ""
  }

  /** `room.projector is True` */
  predicate HasProjector(r: Roster, n: nat) {
    n < |r.rooms| && r.rooms[n].projector == Some(true)
  }

  /** `int(room.capacity)`, or the default capacity when the column is null. */
  function RoomCapacity(r: Roster, n: nat): int {
    if n < |r.rooms| && r.rooms[n].capacity.Some? then r.rooms[n].capacity.value else DefaultRoomCapacity
  }

  function SlotKeyOf(r: Roster, ts: nat): string {
    if ts < |r.timeslots| then SlotKey(r.timeslots[ts]) else ""
  }

  function SlotDay(r: Roster, ts: nat): string {
    if ts < |r.timeslots| then r.timeslots[ts].day else ""
  }

  /** `timeslot.preferredtime is False` */
  predicate NotPreferred(r: Roster, ts: nat) {
    ts < |r.timeslots| && r.timeslots[ts].preferred == Some(false)
  }

  // The same lookups as arrows, for the generic sequence helpers.
  function CodeOf(r: Roster): nat -> string { (s: nat) => SubjectCode(r, s) }
  function RepeatsOf(r: Roster): nat -> int { (s: nat) => SubjectRepeats(r, s) }
  function TutorIdOf(r: Roster): nat -> nat { (s: nat) => TutorOf(r, s) }
  function TutorNameOf(r: Roster): nat -> string { (t: nat) => TutorName(r, t) }
  function SubjectTutorNameOf(r: Roster): nat -> string { (s: nat) => TutorName(r, TutorOf(r, s)) }
  function StudentNameOf(r: Roster): nat -> string { (i: nat) => StudentName(r, i) }
  function RoomNameOf(r: Roster): nat -> string { (n: nat) => RoomName(r, n) }
  function CapacityOf(r: Roster): nat -> int { (n: nat) => RoomCapacity(r, n) }
  function SlotKeyOfId(r: Roster): nat -> string { (ts: nat) => SlotKeyOf(r, ts) }
  function SlotDayOf(r: Roster): nat -> string { (ts: nat) => SlotDay(r, ts) }
  function NeedsProjectorOf(r: Roster): nat -> bool { (s: nat) => NeedsProjector(r, s) }
  function HasProjectorOf(r: Roster): nat -> bool { (n: nat) => HasProjector(r, n) }
  function NotPreferredOf(r: Roster): nat -> bool { (ts: nat) => NotPreferred(r, ts) }
  function OnDay(r: Roster, dayName: string): nat -> bool { (ts: nat) => SlotDay(r, ts) == dayName }

  // ---------------------------------------------------------------------------------------
  // The selections the aggregator iterates over.

  /** `Subject.query.filter(year, studyperiod, tutor != None)` (models.py:717-718), in id order. */
  function CurrentSubjects(r: Roster, ctx: Context): seq<nat> {
    IdsWhere(|r.subjects|, (s: nat) => s < |r.subjects| && r.subjects[s].year == ctx.year
      && r.subjects[s].studyperiod == ctx.studyperiod && r.subjects[s].tutor.Some?)
  }

  /** `Timeslot.query.filter_by(year, studyperiod, timetable)` (models.py:760-761). */
  function TimetableSlots(r: Roster, ctx: Context): seq<nat> {
    IdsWhere(|r.timeslots|, (ts: nat) => ts < |r.timeslots| && r.timeslots[ts].year == ctx.year
      && r.timeslots[ts].studyperiod == ctx.studyperiod && r.timeslots[ts].timetable == ctx.timetable)
  }

  /** `Room.query.all()` (models.py:745): rooms belong to no year or study period. */
  function AllRooms(r: Roster): seq<nat> {
    IdsWhere(|r.rooms|, (n: nat) => true)
  }

  /** The names of the students of the given subjects, subject by subject, before
      deduplication (the STUDENTS list at models.py:727-728). */
  function EnrolledNames(r: Roster, subjects: seq<nat>): (names: seq<string>)
    ensures forall p, i :: 0 <= p < |subjects| && i in SubjectStudents(r, subjects[p]) ==> StudentName(r, i) in names
    ensures forall x :: x in names ==> exists p, i :: 0 <= p < |subjects| && i in SubjectStudents(r, subjects[p]) && StudentName(r, i) == x
  {
    if subjects == [] then []
    else
      var n := |subjects| - 1;
      assert forall p :: 0 <= p < n ==> subjects[..n][p] == subjects[p];
      MapSeqMembers(SubjectStudents(r, subjects[n]), StudentNameOf(r));
      EnrolledNames(r, subjects[..n]) + MapSeq(SubjectStudents(r, subjects[n]), StudentNameOf(r))
  }

  /** The distinct tutors of the given subjects, in order of first appearance
      (`alltutors`, models.py:719, 725-726). */
  function SubjectTutors(r: Roster, subjects: seq<nat>): seq<nat> {
    Dedup(MapSeq(subjects, TutorIdOf(r)))
  }

  /** The days present in the days mapping: one entry per day of the timetable's slots,
      holding that day's slot keys once each (models.py:769-775). */
  function DaysOf(r: Roster, slots: seq<nat>, day: seq<string>): map<string, seq<string>> {
    map dayName | dayName in day :: Dedup(MapSeq(Keep(slots, OnDay(r, dayName)), SlotKeyOfId(r)))
  }

  // The aggregate, field by field as the source fills it.

  /** STUDENTS (models.py:728, 733) */
  function StudentsOf(r: Roster, ctx: Context): seq<string> {
    Dedup(EnrolledNames(r, CurrentSubjects(r, ctx)))
  }

  /** SUBJECTS (models.py:723) */
  function SubjectsOf(r: Roster, ctx: Context): seq<string> {
    MapSeq(CurrentSubjects(r, ctx), CodeOf(r))
  }

  /** TEACHERS (models.py:724, 734) */
  function TeachersOf(r: Roster, ctx: Context): seq<string> {
    Dedup(MapSeq(CurrentSubjects(r, ctx), SubjectTutorNameOf(r)))
  }

  /** SUBJECTMAPPING (models.py:721, 729-730) */
  function SubjectMappingOf(r: Roster, ctx: Context): map<string, seq<string>> {
    Tabulate(CurrentSubjects(r, ctx), CodeOf(r), EnrolmentOf(r))
  }

  /** REPEATS (models.py:722) */
  function RepeatsMapOf(r: Roster, ctx: Context): map<string, int> {
    Tabulate(CurrentSubjects(r, ctx), CodeOf(r), RepeatsOf(r))
  }

  /** PROJECTORS (models.py:731-732) */
  function ProjectorsOf(r: Roster, ctx: Context): seq<string> {
    MapSeq(Keep(CurrentSubjects(r, ctx), NeedsProjectorOf(r)), CodeOf(r))
  }

  /** TEACHERMAPPING (models.py:737, 740-743) */
  function TeacherMappingOf(r: Roster, ctx: Context): map<string, seq<string>> {
    Tabulate(SubjectTutors(r, CurrentSubjects(r, ctx)), TutorNameOf(r), TeachingOf(r))
  }

  /** TUTORAVAILABILITY (models.py:736-742) */
  function AvailabilityMapOf(r: Roster, ctx: Context): map<string, set<string>> {
    Tabulate(SubjectTutors(r, CurrentSubjects(r, ctx)), TutorNameOf(r), AvailabilityOf(r))
  }

  /** ROOMS (models.py:747) */
  function RoomsOf(r: Roster): seq<string> {
    MapSeq(AllRooms(r), RoomNameOf(r))
  }

  /** PROJECTORROOMS (models.py:748-749) */
  function ProjectorRoomsOf(r: Roster): seq<string> {
    MapSeq(Keep(AllRooms(r), HasProjectorOf(r)), RoomNameOf(r))
  }

  /** CAPACITIES (models.py:750-753) */
  function CapacitiesOf(r: Roster): map<string, int> {
    Tabulate(AllRooms(r), RoomNameOf(r), CapacityOf(r))
  }

  /** TIMES (models.py:763) */
  function TimesOf(r: Roster, ctx: Context): seq<string> {
    MapSeq(TimetableSlots(r, ctx), SlotKeyOfId(r))
  }

  /** day (models.py:764, 768) */
  function DayOf(r: Roster, ctx: Context): seq<string> {
    Dedup(MapSeq(TimetableSlots(r, ctx), SlotDayOf(r)))
  }

  /** DAYS (models.py:770-775) */
  function DaysMapOf(r: Roster, ctx: Context): map<string, seq<string>> {
    DaysOf(r, TimetableSlots(r, ctx), DayOf(r, ctx))
  }

  /** NONPREFERREDTIMES (models.py:765-766) */
  function NonPreferredOf(r: Roster, ctx: Context): seq<string> {
    MapSeq(Keep(TimetableSlots(r, ctx), NotPreferredOf(r)), SlotKeyOfId(r))
  }

  /** The 18-tuple of models.py:779-780. */
  function TimetableDataOf(r: Roster, ctx: Context): TimetableData {
    TimetableData(
      students := StudentsOf(r, ctx),
      subjects := SubjectsOf(r, ctx),
      times := TimesOf(r, ctx),
      day := DayOf(r, ctx),
      days := DaysMapOf(r, ctx),
      teachers := TeachersOf(r, ctx),
      subjectMapping := SubjectMappingOf(r, ctx),
      repeats := RepeatsMapOf(r, ctx),
      teacherMapping := TeacherMappingOf(r, ctx),
      tutorAvailability := AvailabilityMapOf(r, ctx),
      maxClassSize := MaxClassSize,
      minClassSize := MinClassSize,
      rooms := RoomsOf(r),
      projectors := ProjectorsOf(r, ctx),
      projectorRooms := ProjectorRoomsOf(r),
      numRoomsProjector := |ProjectorRoomsOf(r)|,
      nonPreferredTimes := NonPreferredOf(r, ctx),
      capacities := CapacitiesOf(r))
  }

  /** SUBJECTMAPPING[code]: the names of a subject's students, once each (models.py:727-730). */
  function Enrolment(r: Roster, s: nat): seq<string> {
    Dedup(MapSeq(SubjectStudents(r, s), StudentNameOf(r)))
  }

  /** TEACHERMAPPING[name]: the codes of all of a tutor's subjects, once each (models.py:740-743). */
  function Teaching(r: Roster, t: nat): seq<string> {
    Dedup(MapSeq(TutorSubjects(r, t), CodeOf(r)))
  }

  /** TUTORAVAILABILITY[name]: the keys of a tutor's available timeslots (models.py:738-742). */
  function Availability(r: Roster, t: nat): set<string> {
    Elems(MapSeq(AvailableTimes(r, t), SlotKeyOfId(r)))
  }

  function EnrolmentOf(r: Roster): nat -> seq<string> { (s: nat) => Enrolment(r, s) }
  function TeachingOf(r: Roster): nat -> seq<string> { (t: nat) => Teaching(r, t) }
  function AvailabilityOf(r: Roster): nat -> set<string> { (t: nat) => Availability(r, t) }

  // ---------------------------------------------------------------------------------------
  // What the engine can rely on.

  /** STUDENTS is exactly the students enrolled in a current subject that has a tutor, each
      name once (models.py:728, 733). */
  lemma AggregateStudents(r: Roster, ctx: Context, x: string)
    ensures NoDup(StudentsOf(r, ctx))
    ensures x in StudentsOf(r, ctx) <==>
      exists s, i :: s in CurrentSubjects(r, ctx) && i in SubjectStudents(r, s) && StudentName(r, i) == x
  {
    var subjects := CurrentSubjects(r, ctx);
    if exists s, i :: s in subjects && i in SubjectStudents(r, s) && StudentName(r, i) == x {
      var s, i :| s in subjects && i in SubjectStudents(r, s) && StudentName(r, i) == x;
      var p :| 0 <= p < |subjects| && subjects[p] == s;
      assert x in EnrolledNames(r, subjects);
    }
  }

  /** TEACHERS is exactly the tutors of the current tutored subjects, each name once, and
      both tutor dictionaries have exactly these names as keys (models.py:724, 734-743). */
  lemma AggregateTeachers(r: Roster, ctx: Context, m: string)
    ensures NoDup(TeachersOf(r, ctx))
    ensures m in TeachersOf(r, ctx) <==> exists s :: s in CurrentSubjects(r, ctx) && TutorName(r, TutorOf(r, s)) == m
    ensures m in TeacherMappingOf(r, ctx) <==> m in TeachersOf(r, ctx)
    ensures m in AvailabilityMapOf(r, ctx) <==> m in TeachersOf(r, ctx)
  {
    var subjects := CurrentSubjects(r, ctx);
    var ids := MapSeq(subjects, TutorIdOf(r));
    var tutors := SubjectTutors(r, subjects);
    if exists s :: s in subjects && TutorName(r, TutorOf(r, s)) == m {
      var s :| s in subjects && TutorName(r, TutorOf(r, s)) == m;
      var p :| 0 <= p < |subjects| && subjects[p] == s;
      MapSeqAt(subjects, SubjectTutorNameOf(r), p);
      MapSeqAt(subjects, TutorIdOf(r), p);
      assert MapSeq(subjects, SubjectTutorNameOf(r))[p] == m;
      assert ids[p] in tutors;
      var q :| 0 <= q < |tutors| && tutors[q] == ids[p];
      assert TutorNameOf(r)(tutors[q]) == m;
    }
    if m in TeachersOf(r, ctx) {
      assert m in MapSeq(subjects, SubjectTutorNameOf(r));
      MapSeqMembers(subjects, SubjectTutorNameOf(r));
      var s :| s in subjects && SubjectTutorNameOf(r)(s) == m;
    }
    if m in TeacherMappingOf(r, ctx) {
      TabulateFrom(tutors, TutorNameOf(r), TeachingOf(r), m);
      TutorInSubjects(r, subjects, m);
    }
    if m in AvailabilityMapOf(r, ctx) {
      TabulateFrom(tutors, TutorNameOf(r), AvailabilityOf(r), m);
      TutorInSubjects(r, subjects, m);
    }
  }

  /** A tutor of `alltutors` with a given name is the tutor of one of the subjects. */
  lemma TutorInSubjects(r: Roster, subjects: seq<nat>, m: string)
    requires exists p :: 0 <= p < |SubjectTutors(r, subjects)| && TutorName(r, SubjectTutors(r, subjects)[p]) == m
    ensures exists s :: s in subjects && TutorName(r, TutorOf(r, s)) == m
  {
    var tutors := SubjectTutors(r, subjects);
    var p :| 0 <= p < |tutors| && TutorName(r, tutors[p]) == m;
    assert tutors[p] in MapSeq(subjects, TutorIdOf(r));
    var q :| 0 <= q < |subjects| && MapSeq(subjects, TutorIdOf(r))[q] == tutors[p];
    MapSeqAt(subjects, TutorIdOf(r), q);
    assert subjects[q] in subjects;
  }

  /** SUBJECTMAPPING and REPEATS are keyed by exactly the codes in SUBJECTS (models.py:720-723). */
  lemma AggregateSubjectKeys(r: Roster, ctx: Context, code: string)
    ensures code in SubjectMappingOf(r, ctx) <==> code in SubjectsOf(r, ctx)
    ensures code in RepeatsMapOf(r, ctx) <==> code in SubjectsOf(r, ctx)
  {
    TabulateKeys(CurrentSubjects(r, ctx), CodeOf(r), EnrolmentOf(r), code);
    TabulateKeys(CurrentSubjects(r, ctx), CodeOf(r), RepeatsOf(r), code);
  }

  /** A code's SUBJECTMAPPING entry holds the names of the students of the last current
      subject with that code, once each, and its REPEATS entry that subject's repeats
      (models.py:720-730). */
  lemma AggregateSubjectEntry(r: Roster, ctx: Context, p: nat)
    requires p < |CurrentSubjects(r, ctx)|
    requires forall q :: p < q < |CurrentSubjects(r, ctx)| ==>
      SubjectCode(r, CurrentSubjects(r, ctx)[q]) != SubjectCode(r, CurrentSubjects(r, ctx)[p])
    ensures var s := CurrentSubjects(r, ctx)[p];
      && Elems(SubjectMappingOf(r, ctx)[SubjectCode(r, s)]) == (set i | i in SubjectStudents(r, s) :: StudentName(r, i))
      && NoDup(SubjectMappingOf(r, ctx)[SubjectCode(r, s)])
      && RepeatsMapOf(r, ctx)[SubjectCode(r, s)] == SubjectRepeats(r, s)
  {
    var subjects := CurrentSubjects(r, ctx);
    TabulateLast(subjects, CodeOf(r), EnrolmentOf(r), p);
    TabulateLast(subjects, CodeOf(r), RepeatsOf(r), p);
    var names := MapSeq(SubjectStudents(r, subjects[p]), StudentNameOf(r));
    MapSeqElems(SubjectStudents(r, subjects[p]), StudentNameOf(r));
    assert Elems(Dedup(names)) == Elems(names);
  }

  /** `day` holds each day of the timetable's slots once, and DAYS is keyed by exactly these
      days (models.py:764, 768-771). */
  lemma AggregateDayKeys(r: Roster, ctx: Context, dayName: string)
    ensures NoDup(DayOf(r, ctx))
    ensures dayName in DaysMapOf(r, ctx) <==> exists ts :: ts in TimetableSlots(r, ctx) && SlotDay(r, ts) == dayName
  {
    var slots := TimetableSlots(r, ctx);
    MapSeqElems(slots, SlotDayOf(r));
    assert dayName in DaysMapOf(r, ctx) <==> dayName in Elems(MapSeq(slots, SlotDayOf(r)));
  }

  /** Every day of DAYS holds, once each, exactly the keys of that day's slots, so DAYS
      partitions TIMES by day (models.py:772-775). */
  lemma AggregateDaySlots(r: Roster, ctx: Context, dayName: string)
    requires dayName in DaysMapOf(r, ctx)
    ensures NoDup(DaysMapOf(r, ctx)[dayName])
    ensures Elems(DaysMapOf(r, ctx)[dayName]) ==
      set ts | ts in TimetableSlots(r, ctx) && SlotDay(r, ts) == dayName :: SlotKeyOf(r, ts)
  {
    var keys := MapSeq(Keep(TimetableSlots(r, ctx), OnDay(r, dayName)), SlotKeyOfId(r));
    assert DaysMapOf(r, ctx)[dayName] == Dedup(keys);
    KeysOfDay(r, TimetableSlots(r, ctx), dayName);
  }

  /** The keys of the slots of one day are the keys of the slots with that day. */
  lemma KeysOfDay(r: Roster, slots: seq<nat>, dayName: string)
    ensures Elems(Dedup(MapSeq(Keep(slots, OnDay(r, dayName)), SlotKeyOfId(r)))) ==
      set ts | ts in slots && SlotDay(r, ts) == dayName :: SlotKeyOf(r, ts)
  {
    var onDay := Keep(slots, OnDay(r, dayName));
    KeepMembers(slots, OnDay(r, dayName));
    var keys := MapSeq(onDay, SlotKeyOfId(r));
    assert Elems(Dedup(keys)) == Elems(keys);
    MapSeqElems(onDay, SlotKeyOfId(r));
    var want := set ts | ts in slots && SlotDay(r, ts) == dayName :: SlotKeyOf(r, ts);
    forall k | k in want ensures k in Elems(keys) {
      var ts :| ts in slots && SlotDay(r, ts) == dayName && SlotKeyOf(r, ts) == k;
      assert ts in onDay;
    }
  }

  /** Every subject of a tutor of a current subject is itself current. Subjects and tutors
      are created per year and study period, so the links the request handlers make keep
      this; the aggregator does not check it (TEACHERMAPPING lists every subject of the
      tutor, models.py:740-741). */
  ghost predicate TutorsTeachOnlyCurrent(r: Roster, ctx: Context) {
    forall s, s' :: s in CurrentSubjects(r, ctx) && s' in TutorSubjects(r, TutorOf(r, s)) ==> s' in CurrentSubjects(r, ctx)
  }

  /** Every subject a tutor of TEACHERS teaches has SUBJECTMAPPING and REPEATS entries. */
  lemma TaughtSubjectsMapped(r: Roster, ctx: Context, m: string, j: string)
    requires TutorsTeachOnlyCurrent(r, ctx)
    requires m in TeacherMappingOf(r, ctx) && j in TeacherMappingOf(r, ctx)[m]
    ensures j in SubjectsOf(r, ctx)
  {
    var t := TeacherNamed(r, ctx, m);
    var s' := TaughtBy(r, t, j);
    TaughtIsCurrent(r, ctx, t, s');
    CodeInSubjects(r, ctx, s');
  }

  /** TEACHERMAPPING[name] is the teaching of a tutor of a current subject. */
  lemma TeacherNamed(r: Roster, ctx: Context, m: string) returns (t: nat)
    requires m in TeacherMappingOf(r, ctx)
    ensures t in SubjectTutors(r, CurrentSubjects(r, ctx)) && TeacherMappingOf(r, ctx)[m] == Teaching(r, t)
  {
    var tutors := SubjectTutors(r, CurrentSubjects(r, ctx));
    TabulateFrom(tutors, TutorNameOf(r), TeachingOf(r), m);
    var p :| 0 <= p < |tutors| && TutorNameOf(r)(tutors[p]) == m && TeacherMappingOf(r, ctx)[m] == TeachingOf(r)(tutors[p]);
    t := tutors[p];
  }

  /** A subject of a tutor of a current subject is current. */
  lemma TaughtIsCurrent(r: Roster, ctx: Context, t: nat, s': nat)
    requires TutorsTeachOnlyCurrent(r, ctx)
    requires t in SubjectTutors(r, CurrentSubjects(r, ctx)) && s' in TutorSubjects(r, t)
    ensures s' in CurrentSubjects(r, ctx)
  {
    var s := TutorFromSubjects(r, CurrentSubjects(r, ctx), t);
  }

  /** A code in TEACHERMAPPING[name] is the code of one of the tutor's subjects. */
  lemma TaughtBy(r: Roster, t: nat, j: string) returns (s: nat)
    requires j in Teaching(r, t)
    ensures s in TutorSubjects(r, t) && SubjectCode(r, s) == j
  {
    var codes := MapSeq(TutorSubjects(r, t), CodeOf(r));
    assert j in codes;
    var q :| 0 <= q < |codes| && codes[q] == j;
    MapSeqAt(TutorSubjects(r, t), CodeOf(r), q);
    s := TutorSubjects(r, t)[q];
  }

  /** Every tutor of `alltutors` is the tutor of one of the subjects. */
  lemma TutorFromSubjects(r: Roster, subjects: seq<nat>, t: nat) returns (s: nat)
    requires t in SubjectTutors(r, subjects)
    ensures s in subjects && TutorOf(r, s) == t
  {
    var ids := MapSeq(subjects, TutorIdOf(r));
    assert t in ids;
    var u :| 0 <= u < |subjects| && ids[u] == t;
    MapSeqAt(subjects, TutorIdOf(r), u);
    s := subjects[u];
  }

  /** The code of a current tutored subject is in SUBJECTS. */
  lemma CodeInSubjects(r: Roster, ctx: Context, s: nat)
    requires s in CurrentSubjects(r, ctx)
    ensures SubjectCode(r, s) in SubjectsOf(r, ctx)
  {
    var subjects := CurrentSubjects(r, ctx);
    var v :| 0 <= v < |subjects| && subjects[v] == s;
    MapSeqAt(subjects, CodeOf(r), v);
  }

  /** Both tutor dictionaries have an entry for every name of TEACHERS (models.py:734-737). */
  lemma AggregateTutorsKnown(r: Roster, ctx: Context)
    ensures TutorsKnown(TimetableDataOf(r, ctx))
  {
    forall m | m in TeachersOf(r, ctx) ensures m in TeacherMappingOf(r, ctx) && m in AvailabilityMapOf(r, ctx) {
      AggregateTeachers(r, ctx, m);
    }
  }

  /** Every subject in TEACHERMAPPING has SUBJECTMAPPING and REPEATS entries (models.py:740-741). */
  lemma AggregateTaughtKnown(r: Roster, ctx: Context)
    requires TutorsTeachOnlyCurrent(r, ctx)
    ensures TaughtKnown(TimetableDataOf(r, ctx))
  {
    TaughtKnownFrom(r, ctx, TimetableDataOf(r, ctx));
  }

  /** TaughtKnown holds of any data whose three dictionaries are the aggregator's. */
  lemma TaughtKnownFrom(r: Roster, ctx: Context, d: TimetableData)
    requires TutorsTeachOnlyCurrent(r, ctx)
    requires d.teacherMapping == TeacherMappingOf(r, ctx)
    requires d.subjectMapping == SubjectMappingOf(r, ctx) && d.repeats == RepeatsMapOf(r, ctx)
    ensures TaughtKnown(d)
  {
    forall m, j | m in d.teachers && j in Taught(d, m)
      ensures j in d.subjectMapping && j in d.repeats
    {
      TaughtKnownAt(r, ctx, m, j);
    }
  }

  /** One teacher's subject has SUBJECTMAPPING and REPEATS entries. */
  lemma TaughtKnownAt(r: Roster, ctx: Context, m: string, j: string)
    requires TutorsTeachOnlyCurrent(r, ctx)
    requires m in TeacherMappingOf(r, ctx) && j in TeacherMappingOf(r, ctx)[m]
    ensures j in SubjectMappingOf(r, ctx) && j in RepeatsMapOf(r, ctx)
  {
    TaughtSubjectsMapped(r, ctx, m, j);
    AggregateSubjectKeys(r, ctx, j);
  }

  /** `day` lists each day once, DAYS is keyed by it, and every slot of DAYS is in TIMES
      (models.py:764-775). */
  lemma AggregateDaysKnown(r: Roster, ctx: Context)
    ensures DaysKnown(TimetableDataOf(r, ctx))
  {
    AggregateDayKeys(r, ctx, "");
    forall dayName, k | dayName in DaysMapOf(r, ctx) && k in DaysMapOf(r, ctx)[dayName] ensures k in TimesOf(r, ctx) {
      DaySlotIsTime(r, ctx, dayName, k);
    }
  }

  /** A slot key listed under a day of DAYS is in TIMES. */
  lemma DaySlotIsTime(r: Roster, ctx: Context, dayName: string, k: string)
    requires dayName in DaysMapOf(r, ctx) && k in DaysMapOf(r, ctx)[dayName]
    ensures k in TimesOf(r, ctx)
  {
    AggregateDaySlots(r, ctx, dayName);
    assert k in Elems(DaysMapOf(r, ctx)[dayName]);
    var ts :| ts in TimetableSlots(r, ctx) && SlotDay(r, ts) == dayName && SlotKeyOf(r, ts) == k;
    MapSeqMembers(TimetableSlots(r, ctx), SlotKeyOfId(r));
    assert SlotKeyOfId(r)(ts) == k;
  }

  /** Every projector room is a room, and every room has a capacity (models.py:746-753). */
  lemma AggregateRoomsKnown(r: Roster, ctx: Context)
    ensures RoomsKnown(TimetableDataOf(r, ctx))
  {
    MapSeqElems(AllRooms(r), RoomNameOf(r));
    MapSeqElems(Keep(AllRooms(r), HasProjectorOf(r)), RoomNameOf(r));
    KeepMembers(AllRooms(r), HasProjectorOf(r));
    forall n | n in ProjectorRoomsOf(r) ensures n in RoomsOf(r) {
      assert n in Elems(ProjectorRoomsOf(r));
      var x :| x in Keep(AllRooms(r), HasProjectorOf(r)) && RoomNameOf(r)(x) == n;
      assert n in Elems(RoomsOf(r));
    }
    forall n | n in RoomsOf(r) ensures n in CapacitiesOf(r) {
      TabulateKeys(AllRooms(r), RoomNameOf(r), CapacityOf(r), n);
    }
  }

  /** PROJECTORS holds exactly the codes of the current tutored subjects whose
      `needsprojector` is True; a null flag counts as not needed (models.py:731-732). */
  lemma AggregateProjectors(r: Roster, ctx: Context, code: string)
    ensures code in ProjectorsOf(r, ctx) <==>
      exists s :: s in CurrentSubjects(r, ctx) && NeedsProjector(r, s) && SubjectCode(r, s) == code
  {
    var kept := Keep(CurrentSubjects(r, ctx), NeedsProjectorOf(r));
    KeepMembers(CurrentSubjects(r, ctx), NeedsProjectorOf(r));
    MapSeqMembers(kept, CodeOf(r));
    if exists s :: s in CurrentSubjects(r, ctx) && NeedsProjector(r, s) && SubjectCode(r, s) == code {
      var s :| s in CurrentSubjects(r, ctx) && NeedsProjector(r, s) && SubjectCode(r, s) == code;
      assert s in kept && CodeOf(r)(s) == code;
    }
    if code in ProjectorsOf(r, ctx) {
      var s :| s in kept && CodeOf(r)(s) == code;
      assert NeedsProjectorOf(r)(s);
    }
  }

  /** PROJECTORROOMS holds exactly the names of the rooms whose `projector` is True; a null
      flag counts as no projector (models.py:748-749). */
  lemma AggregateProjectorRooms(r: Roster, name: string)
    ensures name in ProjectorRoomsOf(r) <==>
      exists n: nat :: n < |r.rooms| && HasProjector(r, n) && RoomName(r, n) == name
  {
    var kept := Keep(AllRooms(r), HasProjectorOf(r));
    KeepMembers(AllRooms(r), HasProjectorOf(r));
    MapSeqMembers(kept, RoomNameOf(r));
    if exists n: nat :: n < |r.rooms| && HasProjector(r, n) && RoomName(r, n) == name {
      var n: nat :| n < |r.rooms| && HasProjector(r, n) && RoomName(r, n) == name;
      assert n in AllRooms(r);
      assert n in kept && RoomNameOf(r)(n) == name;
    }
    if name in ProjectorRoomsOf(r) {
      var n :| n in kept && RoomNameOf(r)(n) == name;
      assert HasProjectorOf(r)(n);
    }
  }

  /** CAPACITIES[name] is the capacity of the room of that name, or the default capacity
      when its capacity is null. Rooms are written in id order, so among rooms sharing a
      name the last one wins (models.py:750-753). */
  lemma AggregateCapacities(r: Roster, n: nat)
    requires n < |r.rooms|
    requires forall n' :: n < n' < |r.rooms| ==> RoomName(r, n') != RoomName(r, n)
    ensures RoomName(r, n) in CapacitiesOf(r) && CapacitiesOf(r)[RoomName(r, n)] ==
      if r.rooms[n].capacity.Some? then r.rooms[n].capacity.value else DefaultRoomCapacity
  {
    var rooms := AllRooms(r);
    IdsWhereAll(|r.rooms|, (n: nat) => true);
    assert rooms[n] == n;
    forall q | n < q < |rooms| ensures RoomNameOf(r)(rooms[q]) != RoomNameOf(r)(rooms[n]) {
      assert rooms[q] == q;
    }
    TabulateLast(rooms, RoomNameOf(r), CapacityOf(r), n);
  }

  /** TIMES holds the key `day + " " + time` of every slot of the current timetable and
      nothing else (models.py:762-763). */
  lemma AggregateTimes(r: Roster, ctx: Context, k: string)
    ensures k in TimesOf(r, ctx) <==> exists ts :: ts in TimetableSlots(r, ctx) && SlotKeyOf(r, ts) == k
  {
    MapSeqMembers(TimetableSlots(r, ctx), SlotKeyOfId(r));
    if exists ts :: ts in TimetableSlots(r, ctx) && SlotKeyOf(r, ts) == k {
      var ts :| ts in TimetableSlots(r, ctx) && SlotKeyOf(r, ts) == k;
      assert SlotKeyOfId(r)(ts) == k;
    }
  }

  /** NONPREFERREDTIMES holds exactly the keys of the current timetable's slots whose
      `preferredtime` is False; a null flag counts as preferred (models.py:762, 765-766). */
  lemma AggregateNonPreferred(r: Roster, ctx: Context, k: string)
    ensures k in NonPreferredOf(r, ctx) <==>
      exists ts :: ts in TimetableSlots(r, ctx) && NotPreferred(r, ts) && SlotKeyOf(r, ts) == k
  {
    var kept := Keep(TimetableSlots(r, ctx), NotPreferredOf(r));
    KeepMembers(TimetableSlots(r, ctx), NotPreferredOf(r));
    MapSeqMembers(kept, SlotKeyOfId(r));
    if exists ts :: ts in TimetableSlots(r, ctx) && NotPreferred(r, ts) && SlotKeyOf(r, ts) == k {
      var ts :| ts in TimetableSlots(r, ctx) && NotPreferred(r, ts) && SlotKeyOf(r, ts) == k;
      assert ts in kept && SlotKeyOfId(r)(ts) == k;
    }
    if k in NonPreferredOf(r, ctx) {
      var ts :| ts in kept && SlotKeyOfId(r)(ts) == k;
      assert NotPreferredOf(r)(ts);
    }
  }

  /** The entries of DAYS together hold exactly TIMES (models.py:762-775). */
  lemma AggregateDaysCoverTimes(r: Roster, ctx: Context, k: string)
    ensures k in TimesOf(r, ctx) <==> exists d :: d in DaysMapOf(r, ctx) && k in DaysMapOf(r, ctx)[d]
  {
    AggregateTimes(r, ctx, k);
    if k in TimesOf(r, ctx) {
      var ts :| ts in TimetableSlots(r, ctx) && SlotKeyOf(r, ts) == k;
      var d := SlotDay(r, ts);
      AggregateDayKeys(r, ctx, d);
      AggregateDaySlots(r, ctx, d);
      assert k in Elems(DaysMapOf(r, ctx)[d]);
    }
    if exists d :: d in DaysMapOf(r, ctx) && k in DaysMapOf(r, ctx)[d] {
      var d :| d in DaysMapOf(r, ctx) && k in DaysMapOf(r, ctx)[d];
      AggregateDaySlots(r, ctx, d);
      assert k in Elems(DaysMapOf(r, ctx)[d]);
    }
  }

  /** The aggregate is what the engine demands of its input: every lookup the two stages
      make succeeds. */
  lemma AggregateWellFormed(r: Roster, ctx: Context)
    requires TutorsTeachOnlyCurrent(r, ctx)
    ensures WellFormed(TimetableDataOf(r, ctx))
  {
    AggregateTutorsKnown(r, ctx);
    AggregateTaughtKnown(r, ctx);
    AggregateDaysKnown(r, ctx);
    AggregateRoomsKnown(r, ctx);
  }

  /** No two timeslots of the current timetable share a day and a time. */
  ghost predicate SlotKeysUnique(r: Roster, ctx: Context) {
    forall a, b :: a in TimetableSlots(r, ctx) && b in TimetableSlots(r, ctx) && a != b ==> SlotKeyOf(r, a) != SlotKeyOf(r, b)
  }

  /** No two rooms share a name. */
  ghost predicate RoomNamesUnique(r: Roster) {
    forall a, b :: 0 <= a < |r.rooms| && 0 <= b < |r.rooms| && a != b ==> r.rooms[a].name != r.rooms[b].name
  }

  /** TIMES repeats no key exactly when no two timeslots of the current timetable share a day
      and a time (models.py:762-763); nothing in the aggregator removes a repeated key. */
  lemma AggregateTimesDistinct(r: Roster, ctx: Context)
    ensures NoDup(TimesOf(r, ctx)) <==> SlotKeysUnique(r, ctx)
  {
    MapSeqNoDup(TimetableSlots(r, ctx), SlotKeyOfId(r));
  }

  /** ROOMS repeats no name exactly when no two rooms share a name (models.py:745-747). */
  lemma AggregateRoomsDistinct(r: Roster)
    ensures NoDup(RoomsOf(r)) <==> RoomNamesUnique(r)
  {
    var ids := AllRooms(r);
    MapSeqNoDup(ids, RoomNameOf(r));
    if NoDup(RoomsOf(r)) {
      forall a, b | 0 <= a < |r.rooms| && 0 <= b < |r.rooms| && a != b ensures r.rooms[a].name != r.rooms[b].name {
        var a': nat, b': nat := a, b;
        assert a' in ids && b' in ids;
        assert RoomNameOf(r)(a') != RoomNameOf(r)(b');
      }
    }
    if RoomNamesUnique(r) {
      forall a, b | a in ids && b in ids && a != b ensures RoomNameOf(r)(a) != RoomNameOf(r)(b) {
        assert a < |r.rooms| && b < |r.rooms|;
      }
    }
  }

  /** With unique day-and-time keys and unique room names, every index list of the aggregate
      is duplicate-free: TEACHERS and the TEACHERMAPPING and SUBJECTMAPPING entries always
      are, since they pass through `set` (models.py:733-743). */
  lemma AggregateDistinct(r: Roster, ctx: Context)
    requires SlotKeysUnique(r, ctx) && RoomNamesUnique(r)
    ensures Distinct(TimetableDataOf(r, ctx))
  {
    AggregateTimesDistinct(r, ctx);
    AggregateRoomsDistinct(r);
    forall m | m in TeachersOf(r, ctx) ensures m in TeacherMappingOf(r, ctx) && NoDup(TeacherMappingOf(r, ctx)[m]) {
      AggregateTeachers(r, ctx, m);
      var t := TeacherNamed(r, ctx, m);
    }
    forall j | j in SubjectMappingOf(r, ctx) ensures NoDup(SubjectMappingOf(r, ctx)[j]) {
      TabulateFrom(CurrentSubjects(r, ctx), CodeOf(r), EnrolmentOf(r), j);
    }
  }

  // ---------------------------------------------------------------------------------------
  // The aggregator's loops.

  /** `for x in xs: ys.append(f(x))` */
  method Collect<X, Y>(xs: seq<X>, f: X -> Y) returns (ys: seq<Y>)
    ensures ys == MapSeq(xs, f)
  {
    ys := [];
    for p := 0 to |xs|
      invariant ys == MapSeq(xs[..p], f)
    {
      assert xs[..p + 1][..p] == xs[..p];
      ys := ys + [f(xs[p])];
    }
    assert xs[..|xs|] == xs;
  }

  /** The loop over the current tutored subjects (models.py:720-732). */
  method SubjectPass(r: Roster, subjects: seq<nat>)
    returns (codes: seq<string>, teacherNames: seq<string>, tutors: seq<nat>, students: seq<string>,
             mapping: map<string, seq<string>>, repeats: map<string, int>, projectors: seq<string>)
    ensures codes == MapSeq(subjects, CodeOf(r))
    ensures teacherNames == MapSeq(subjects, SubjectTutorNameOf(r))
    ensures tutors == SubjectTutors(r, subjects)
    ensures students == EnrolledNames(r, subjects)
    ensures mapping == Tabulate(subjects, CodeOf(r), EnrolmentOf(r))
    ensures repeats == Tabulate(subjects, CodeOf(r), RepeatsOf(r))
    ensures projectors == MapSeq(Keep(subjects, NeedsProjectorOf(r)), CodeOf(r))
  {
    codes, teacherNames, tutors, students, projectors := [], [], [], [], [];
    mapping, repeats := map[], map[];
    for p := 0 to |subjects|
      invariant codes == MapSeq(subjects[..p], CodeOf(r))
      invariant teacherNames == MapSeq(subjects[..p], SubjectTutorNameOf(r))
      invariant tutors == SubjectTutors(r, subjects[..p])
      invariant students == EnrolledNames(r, subjects[..p])
      invariant mapping == Tabulate(subjects[..p], CodeOf(r), EnrolmentOf(r))
      invariant repeats == Tabulate(subjects[..p], CodeOf(r), RepeatsOf(r))
      invariant projectors == MapSeq(Keep(subjects[..p], NeedsProjectorOf(r)), CodeOf(r))
    {
      var s := subjects[p];
      SubjectStep(r, subjects, p);
      var code := SubjectCode(r, s);
      repeats := repeats[code := SubjectRepeats(r, s)];
      codes := codes + [code];
      teacherNames := teacherNames + [TutorName(r, TutorOf(r, s))];
      if TutorOf(r, s) !in tutors {
        tutors := tutors + [TutorOf(r, s)];
      }
      var names := Collect(SubjectStudents(r, s), StudentNameOf(r));
      students := students + names;
      mapping := mapping[code := Dedup(names)];
      var before := Keep(subjects[..p], NeedsProjectorOf(r));
      if NeedsProjector(r, s) {
        MapSeqAppend(before, s, CodeOf(r));
        projectors := projectors + [code];
      } else {
        assert before + [] == before;
      }
    }
    assert subjects[..|subjects|] == subjects;
  }

  /** What one more subject adds to each accumulator of the subject loop. */
  lemma SubjectStep(r: Roster, subjects: seq<nat>, p: nat)
    requires p < |subjects|
    ensures var s := subjects[p];
      && MapSeq(subjects[..p + 1], CodeOf(r)) == MapSeq(subjects[..p], CodeOf(r)) + [SubjectCode(r, s)]
      && MapSeq(subjects[..p + 1], SubjectTutorNameOf(r)) == MapSeq(subjects[..p], SubjectTutorNameOf(r)) + [TutorName(r, TutorOf(r, s))]
      && SubjectTutors(r, subjects[..p + 1]) ==
           (if TutorOf(r, s) in SubjectTutors(r, subjects[..p]) then SubjectTutors(r, subjects[..p])
            else SubjectTutors(r, subjects[..p]) + [TutorOf(r, s)])
      && EnrolledNames(r, subjects[..p + 1]) == EnrolledNames(r, subjects[..p]) + MapSeq(SubjectStudents(r, s), StudentNameOf(r))
      && Tabulate(subjects[..p + 1], CodeOf(r), EnrolmentOf(r)) ==
           Tabulate(subjects[..p], CodeOf(r), EnrolmentOf(r))[SubjectCode(r, s) := Enrolment(r, s)]
      && Tabulate(subjects[..p + 1], CodeOf(r), RepeatsOf(r)) ==
           Tabulate(subjects[..p], CodeOf(r), RepeatsOf(r))[SubjectCode(r, s) := SubjectRepeats(r, s)]
      && Keep(subjects[..p + 1], NeedsProjectorOf(r)) ==
           Keep(subjects[..p], NeedsProjectorOf(r)) + (if NeedsProjector(r, s) then [s] else [])
  {
    MapSeqSnoc(subjects, p, CodeOf(r));
    MapSeqSnoc(subjects, p, SubjectTutorNameOf(r));
    MapSeqSnoc(subjects, p, TutorIdOf(r));
    DedupSnoc(MapSeq(subjects[..p], TutorIdOf(r)), TutorOf(r, subjects[p]));
    assert subjects[..p + 1][..p] == subjects[..p];
    TabulateSnoc(subjects, p, CodeOf(r), EnrolmentOf(r));
    TabulateSnoc(subjects, p, CodeOf(r), RepeatsOf(r));
    KeepSnoc(subjects, p, NeedsProjectorOf(r));
  }

  /** The loop over `alltutors` (models.py:735-743). */
  method TutorPass(r: Roster, tutors: seq<nat>) returns (availability: map<string, set<string>>, teaching: map<string, seq<string>>)
    ensures availability == Tabulate(tutors, TutorNameOf(r), AvailabilityOf(r))
    ensures teaching == Tabulate(tutors, TutorNameOf(r), TeachingOf(r))
  {
    availability, teaching := map[], map[];
    for p := 0 to |tutors|
      invariant availability == Tabulate(tutors[..p], TutorNameOf(r), AvailabilityOf(r))
      invariant teaching == Tabulate(tutors[..p], TutorNameOf(r), TeachingOf(r))
    {
      var t := tutors[p];
      TabulateSnoc(tutors, p, TutorNameOf(r), AvailabilityOf(r));
      TabulateSnoc(tutors, p, TutorNameOf(r), TeachingOf(r));
      var keys := Collect(AvailableTimes(r, t), SlotKeyOfId(r));
      var codes := Collect(TutorSubjects(r, t), CodeOf(r));
      availability := availability[TutorName(r, t) := Elems(keys)];
      teaching := teaching[TutorName(r, t) := Dedup(codes)];
    }
    assert tutors[..|tutors|] == tutors;
  }

  /** The loop over all rooms (models.py:746-753). */
  method RoomPass(r: Roster) returns (names: seq<string>, projectorRooms: seq<string>, capacities: map<string, int>)
    ensures names == RoomsOf(r) && projectorRooms == ProjectorRoomsOf(r) && capacities == CapacitiesOf(r)
  {
    var rooms := AllRooms(r);
    names, projectorRooms, capacities := [], [], map[];
    for p := 0 to |rooms|
      invariant names == MapSeq(rooms[..p], RoomNameOf(r))
      invariant projectorRooms == MapSeq(Keep(rooms[..p], HasProjectorOf(r)), RoomNameOf(r))
      invariant capacities == Tabulate(rooms[..p], RoomNameOf(r), CapacityOf(r))
    {
      var n := rooms[p];
      MapSeqSnoc(rooms, p, RoomNameOf(r));
      KeepSnoc(rooms, p, HasProjectorOf(r));
      var before := Keep(rooms[..p], HasProjectorOf(r));
      if HasProjector(r, n) {
        MapSeqAppend(before, n, RoomNameOf(r));
      } else {
        assert before + [] == before;
      }
      TabulateSnoc(rooms, p, RoomNameOf(r), CapacityOf(r));
      names := names + [RoomName(r, n)];
      if HasProjector(r, n) {
        projectorRooms := projectorRooms + [RoomName(r, n)];
      }
      capacities := capacities[RoomName(r, n) := RoomCapacity(r, n)];
    }
    assert rooms[..|rooms|] == rooms;
  }

  /** The first loop over the timetable's slots (models.py:762-766). */
  method SlotPass(r: Roster, slots: seq<nat>) returns (times: seq<string>, days: seq<string>, nonPreferred: seq<string>)
    ensures times == MapSeq(slots, SlotKeyOfId(r))
    ensures days == MapSeq(slots, SlotDayOf(r))
    ensures nonPreferred == MapSeq(Keep(slots, NotPreferredOf(r)), SlotKeyOfId(r))
  {
    times, days, nonPreferred := [], [], [];
    for p := 0 to |slots|
      invariant times == MapSeq(slots[..p], SlotKeyOfId(r))
      invariant days == MapSeq(slots[..p], SlotDayOf(r))
      invariant nonPreferred == MapSeq(Keep(slots[..p], NotPreferredOf(r)), SlotKeyOfId(r))
    {
      var ts := slots[p];
      assert slots[..p + 1][..p] == slots[..p];
      times := times + [SlotKeyOf(r, ts)];
      days := days + [SlotDay(r, ts)];
      if NotPreferred(r, ts) {
        nonPreferred := nonPreferred + [SlotKeyOf(r, ts)];
      }
    }
    assert slots[..|slots|] == slots;
  }

  /** The DAYS loops (models.py:770-775): an empty entry per day, each slot's key added to
      its day, then every entry made a set. */
  method DaysPass(r: Roster, slots: seq<nat>, day: seq<string>) returns (days: map<string, seq<string>>)
    requires forall ts :: ts in slots ==> SlotDay(r, ts) in day
    ensures days == DaysOf(r, slots, day)
  {
    days := EmptyDays(day);
    days := FillDays(r, slots, day, days);
    days := DedupDays(day, days);
  }

  /** `for d in day: DAYS[d] = []` */
  method EmptyDays(day: seq<string>) returns (days: map<string, seq<string>>)
    ensures days.Keys == Elems(day)
    ensures forall dayName :: dayName in days ==> days[dayName] == []
  {
    days := map[];
    for q := 0 to |day|
      invariant days.Keys == Elems(day[..q])
      invariant forall dayName :: dayName in days ==> days[dayName] == []
    {
      assert day[..q + 1] == day[..q] + [day[q]];
      days := days[day[q] := []];
    }
    assert day[..|day|] == day;
  }

  /** Every day's entry lists the keys of that day's slots among the first `p`. */
  ghost predicate DaysFilled(r: Roster, slots: seq<nat>, p: nat, days: map<string, seq<string>>)
    requires p <= |slots|
  {
    forall dayName :: dayName in days ==> days[dayName] == MapSeq(Keep(slots[..p], OnDay(r, dayName)), SlotKeyOfId(r))
  }

  /** One more slot's key added to its day keeps `DaysFilled`. */
  lemma FillDaysStep(r: Roster, slots: seq<nat>, p: nat, days: map<string, seq<string>>)
    requires p < |slots| && SlotDay(r, slots[p]) in days && DaysFilled(r, slots, p, days)
    ensures DaysFilled(r, slots, p + 1, days[SlotDay(r, slots[p]) := days[SlotDay(r, slots[p])] + [SlotKeyOf(r, slots[p])]])
  {
    var ts := slots[p];
    forall dayName | dayName in days
      ensures MapSeq(Keep(slots[..p + 1], OnDay(r, dayName)), SlotKeyOfId(r)) ==
        MapSeq(Keep(slots[..p], OnDay(r, dayName)), SlotKeyOfId(r)) + (if SlotDay(r, ts) == dayName then [SlotKeyOf(r, ts)] else [])
    {
      var before := Keep(slots[..p], OnDay(r, dayName));
      KeepSnoc(slots, p, OnDay(r, dayName));
      if SlotDay(r, ts) == dayName {
        MapSeqAppend(before, ts, SlotKeyOfId(r));
      } else {
        assert Keep(slots[..p + 1], OnDay(r, dayName)) == before + [];
        assert before + [] == before;
      }
    }
  }

  /** `for timeslot in timeslots: DAYS[timeslot.day].append(key)` */
  method FillDays(r: Roster, slots: seq<nat>, day: seq<string>, empty: map<string, seq<string>>) returns (days: map<string, seq<string>>)
    requires forall ts :: ts in slots ==> SlotDay(r, ts) in day
    requires empty.Keys == Elems(day) && forall dayName :: dayName in empty ==> empty[dayName] == []
    ensures days.Keys == Elems(day)
    ensures forall dayName :: dayName in days ==> days[dayName] == MapSeq(Keep(slots, OnDay(r, dayName)), SlotKeyOfId(r))
  {
    days := empty;
    assert DaysFilled(r, slots, 0, days) by {
      assert slots[..0] == [];
    }
    for p := 0 to |slots|
      invariant days.Keys == empty.Keys
      invariant DaysFilled(r, slots, p, days)
    {
      var ts := slots[p];
      assert ts in slots;
      FillDaysStep(r, slots, p, days);
      days := days[SlotDay(r, ts) := days[SlotDay(r, ts)] + [SlotKeyOf(r, ts)]];
    }
    assert slots[..|slots|] == slots;
  }

  /** `for d in day: DAYS[d] = set(DAYS[d])` */
  method DedupDays(day: seq<string>, raw: map<string, seq<string>>) returns (days: map<string, seq<string>>)
    requires raw.Keys == Elems(day)
    ensures days == map dayName | dayName in day :: Dedup(raw[dayName])
  {
    days := raw;
    assert day[..0] == [];
    for q := 0 to |day|
      invariant DedupedUpTo(day, raw, q, days)
    {
      DedupDaysStep(day, raw, q, days);
      days := days[day[q] := Dedup(raw[day[q]])];
    }
    DedupDaysDone(day, raw, days);
  }

  /** The entries of the first `q` days are made sets and the others are as filled. */
  ghost predicate DedupedUpTo(day: seq<string>, raw: map<string, seq<string>>, q: nat, days: map<string, seq<string>>)
    requires q <= |day|
  {
    && days.Keys == raw.Keys
    && forall dayName :: dayName in days ==> days[dayName] == if dayName in day[..q] then Dedup(raw[dayName]) else raw[dayName]
  }

  /** Making one more day's entry a set keeps `DedupedUpTo`. */
  lemma DedupDaysStep(day: seq<string>, raw: map<string, seq<string>>, q: nat, days: map<string, seq<string>>)
    requires q < |day| && raw.Keys == Elems(day) && DedupedUpTo(day, raw, q, days)
    ensures DedupedUpTo(day, raw, q + 1, days[day[q] := Dedup(raw[day[q]])])
  {
    assert day[..q + 1] == day[..q] + [day[q]];
  }

  /** With every day done, each entry is the set of its filled entry. */
  lemma DedupDaysDone(day: seq<string>, raw: map<string, seq<string>>, days: map<string, seq<string>>)
    requires raw.Keys == Elems(day) && DedupedUpTo(day, raw, |day|, days)
    ensures days == map dayName | dayName in day :: Dedup(raw[dayName])
  {
    assert day[..|day|] == day;
  }

  /** `get_timetable_data(rooms=True)` (models.py:699-780). */
  method GetTimetableData(r: Roster, ctx: Context) returns (d: TimetableData)
    ensures d == TimetableDataOf(r, ctx)
  {
    var subjects := CurrentSubjects(r, ctx);
    var codes, teacherNames, tutors, students, mapping, repeats, projectors := SubjectPass(r, subjects);
    var availability, teaching := TutorPass(r, tutors);
    var rooms, projectorRooms, capacities := RoomPass(r);
    var slots := TimetableSlots(r, ctx);
    var times, dayList, nonPreferred := SlotPass(r, slots);
    var day := Dedup(dayList);
    forall ts | ts in slots ensures SlotDay(r, ts) in day {
      var p :| 0 <= p < |slots| && slots[p] == ts;
      MapSeqAt(slots, SlotDayOf(r), p);
      assert dayList[p] == SlotDay(r, ts);
    }
    var days := DaysPass(r, slots, day);
    d := TimetableData(
      students := Dedup(students), subjects := codes, times := times, day := day, days := days,
      teachers := Dedup(teacherNames), subjectMapping := mapping, repeats := repeats,
      teacherMapping := teaching, tutorAvailability := availability,
      maxClassSize := MaxClassSize, minClassSize := MinClassSize,
      rooms := rooms, projectors := projectors, projectorRooms := projectorRooms,
      numRoomsProjector := |projectorRooms|, nonPreferredTimes := nonPreferred, capacities := capacities);
  }
}
