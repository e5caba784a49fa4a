/** What the TimetabledClass records written after two successful stages guarantee: the
    properties a school timetable must have, derived from the constraints of both stages. */
module RecordGuarantees {
  import opened Seqs
  import opened Sums
  import opened TimetableData
  import opened StageOne
  import opened StageOneGuarantees
  import opened ClassPopulation
  import opened StageTwo
  import opened StageTwoGuarantees
  import opened Materialise

  /** `records` are exactly the records the materialiser creates from these values. */
  ghost predicate RecordsFrom(d: TimetableData, v: Stage1Values, w: Stage2Values, timetable: int, records: seq<ClassRecord>) {
    forall r :: r in records <==> IsRecordOf(d, ClassPopulationOf(d, v), w.room, v.assign, timetable, r)
  }

  /** Every class sits at a timeslot its tutor is available, within the class-size limits. */
  ghost predicate ClassesWithinLimits(d: TimetableData, records: seq<ClassRecord>) {
    forall r :: r in records ==>
      r.time in Available(d, r.tutor) && d.minClassSize <= |r.students| <= d.maxClassSize
  }

  /** No room holds two classes at one timeslot. */
  ghost predicate NoRoomClash(records: seq<ClassRecord>) {
    forall r1, r2 :: r1 in records && r2 in records && r1.time == r2.time && r1.room == r2.room ==> r1 == r2
  }

  /** No tutor takes two classes at one timeslot. */
  ghost predicate NoTutorClash(records: seq<ClassRecord>) {
    forall r1, r2 :: r1 in records && r2 in records && r1.time == r2.time && r1.tutor == r2.tutor ==> r1 == r2
  }

  /** Every enrolled student of a tutor's subject is in a class of it. */
  ghost predicate EveryStudentHasClass(d: TimetableData, records: seq<ClassRecord>) {
    forall m, j, i :: m in d.teachers && j in Taught(d, m) && i in Enrolled(d, j) ==>
      exists r :: r in records && r.subject == j && r.tutor == m && i in r.students
  }

  /** No student is in two classes of one subject and tutor. */
  ghost predicate StudentInOneClass(records: seq<ClassRecord>) {
    forall r1, r2, i ::
      r1 in records && r2 in records && r1.subject == r2.subject && r1.tutor == r2.tutor && i in r1.students && i in r2.students
      ==> r1 == r2
  }

  /** The timetable properties, stated on the records alone. */
  ghost predicate TimetableSound(d: TimetableData, records: seq<ClassRecord>) {
    && ClassesWithinLimits(d, records)
    && NoRoomClash(records)
    && NoTutorClash(records)
    && EveryStudentHasClass(d, records)
    && StudentInOneClass(records)
  }

  /** The stage-1 constraints that place students in running sessions. */
  ghost predicate Placed(d: TimetableData, v: Stage1Values) {
    && AssignBinary(d, v.assign) && ScheduledBinary(d, v.scheduled)
    && EveryStudentPlaced(d, v.assign) && AttendsOnlyScheduled(d, v.assign, v.scheduled)
    && WithinAvailability(d, v.scheduled)
  }

  /** The stage-2 constraints that give every session of classpop one room. */
  ghost predicate RoomsPlaced(d: TimetableData, v: Stage1Values, w: Stage2Values) {
    RoomBinary(d, ClassPopulationOf(d, v), w.room) && RoomPerSession(d, v.scheduled, ClassPopulationOf(d, v), w.room)
  }

  /** Two records of the same session are the same record. */
  lemma SameSessionSameRecord(d: TimetableData, v: Stage1Values, w: Stage2Values, timetable: int, records: seq<ClassRecord>, r1: ClassRecord, r2: ClassRecord)
    requires RoomsPlaced(d, v, w) && RecordsFrom(d, v, w, timetable, records)
    requires r1 in records && r2 in records && SessionOf(r1) == SessionOf(r2)
    ensures r1 == r2
  {
    assert IsRecordOf(d, ClassPopulationOf(d, v), w.room, v.assign, timetable, r1);
    assert IsRecordOf(d, ClassPopulationOf(d, v), w.room, v.assign, timetable, r2);
    OneRoomPerClass(d, v, w, SessionOf(r1));
  }

  /** Records respect tutor availability and class sizes (helpers.py:88-91, 157-162). */
  lemma RecordsWithinLimits(d: TimetableData, v: Stage1Values, w: Stage2Values, timetable: int, records: seq<ClassRecord>)
    requires ScheduledBinary(d, v.scheduled) && WithinAvailability(d, v.scheduled)
    requires AssignBinary(d, v.assign) && AttendsOnlyScheduled(d, v.assign, v.scheduled) && ClassSizes(d, v.assign, v.scheduled)
    requires RecordsFrom(d, v, w, timetable, records)
    ensures ClassesWithinLimits(d, records)
  {
    forall r | r in records
      ensures r.time in Available(d, r.tutor) && d.minClassSize <= |r.students| <= d.maxClassSize
    {
      assert IsRecordOf(d, ClassPopulationOf(d, v), w.room, v.assign, timetable, r);
      SessionRunsOnlyWhenAvailable(d, v, r.subject, r.time, r.tutor);
      ClassSizeBounds(d, v, r.subject, r.time, r.tutor);
    }
  }

  /** No two records share a room at a timeslot (helpers.py:224-226). */
  lemma RecordsNoRoomClash(d: TimetableData, v: Stage1Values, w: Stage2Values, timetable: int, records: seq<ClassRecord>)
    requires RoomsPlaced(d, v, w) && RoomUnique(d, ClassPopulationOf(d, v), w.room) && RecordsFrom(d, v, w, timetable, records)
    ensures NoRoomClash(records)
  {
    var classpop := ClassPopulationOf(d, v);
    forall r1, r2 | r1 in records && r2 in records && r1.time == r2.time && r1.room == r2.room
      ensures r1 == r2
    {
      assert IsRecordOf(d, classpop, w.room, v.assign, timetable, r1);
      assert IsRecordOf(d, classpop, w.room, v.assign, timetable, r2);
      RoomHoldsOneClass(d, classpop, w.room, r1.room, SessionOf(r1), SessionOf(r2));
      SameSessionSameRecord(d, v, w, timetable, records, r1, r2);
    }
  }

  /** No tutor has two records at a timeslot (helpers.py:132-134). */
  lemma RecordsNoTutorClash(d: TimetableData, v: Stage1Values, w: Stage2Values, timetable: int, records: seq<ClassRecord>)
    requires ScheduledBinary(d, v.scheduled) && OneSessionPerTutor(d, v.scheduled)
    requires RoomsPlaced(d, v, w) && RecordsFrom(d, v, w, timetable, records)
    ensures NoTutorClash(records)
  {
    var classpop := ClassPopulationOf(d, v);
    forall r1, r2 | r1 in records && r2 in records && r1.time == r2.time && r1.tutor == r2.tutor
      ensures r1 == r2
    {
      assert IsRecordOf(d, classpop, w.room, v.assign, timetable, r1);
      assert IsRecordOf(d, classpop, w.room, v.assign, timetable, r2);
      TutorOneAtATime(d, v, r1.time, r1.tutor, r1.subject, r2.subject);
      SameSessionSameRecord(d, v, w, timetable, records, r1, r2);
    }
  }

  /** Every enrolled student of a tutor's subject is in a record of it (helpers.py:95-98). */
  lemma RecordsPlaceStudents(d: TimetableData, v: Stage1Values, w: Stage2Values, timetable: int, records: seq<ClassRecord>)
    requires Placed(d, v) && RoomsPlaced(d, v, w) && RecordsFrom(d, v, w, timetable, records)
    ensures EveryStudentHasClass(d, records)
  {
    forall m, j, i | m in d.teachers && j in Taught(d, m) && i in Enrolled(d, j)
      ensures exists r :: r in records && r.subject == j && r.tutor == m && i in r.students
    {
      StudentHasRecord(d, v, w, timetable, records, m, j, i);
    }
  }

  /** One enrolled student of a tutor's subject is in a record of it. */
  lemma StudentHasRecord(d: TimetableData, v: Stage1Values, w: Stage2Values, timetable: int, records: seq<ClassRecord>, m: string, j: string, i: string)
    requires Placed(d, v) && RoomsPlaced(d, v, w) && RecordsFrom(d, v, w, timetable, records)
    requires m in d.teachers && j in Taught(d, m) && i in Enrolled(d, j)
    ensures exists r :: r in records && r.subject == j && r.tutor == m && i in r.students
  {
    StudentPlacedOnce(d, v, m, j, i);
    var k :| k in d.times && v.assign(i, j, k, m) == 1;
    var t := Session(j, k, m);
    assert t in ClassPopulationOf(d, v);
    OneRoomPerClass(d, v, w, t);
    var n :| n in d.rooms && w.room(t, n) == 1;
    SessionRecordIn(d, v, w, timetable, records, t, n);
    assert i in Attendees(d, v.assign, t);
  }

  /** The record of a session of classpop in a room it is placed in is one of the records. */
  lemma SessionRecordIn(d: TimetableData, v: Stage1Values, w: Stage2Values, timetable: int, records: seq<ClassRecord>, t: Session, n: string)
    requires RecordsFrom(d, v, w, timetable, records)
    requires t in ClassPopulationOf(d, v) && n in d.rooms && w.room(t, n) == 1
    ensures ClassRecord(t.subject, t.time, t.tutor, n, timetable, Attendees(d, v.assign, t)) in records
  {
    var r := ClassRecord(t.subject, t.time, t.tutor, n, timetable, Attendees(d, v.assign, t));
    assert SessionOf(r) == t;
    assert IsRecordOf(d, ClassPopulationOf(d, v), w.room, v.assign, timetable, r);
  }

  /** A student is in at most one record of a subject and tutor (helpers.py:95-98). */
  lemma RecordsPlaceStudentsOnce(d: TimetableData, v: Stage1Values, w: Stage2Values, timetable: int, records: seq<ClassRecord>)
    requires Placed(d, v) && RoomsPlaced(d, v, w) && RecordsFrom(d, v, w, timetable, records)
    ensures StudentInOneClass(records)
  {
    var classpop := ClassPopulationOf(d, v);
    forall r1, r2, i | r1 in records && r2 in records && r1.subject == r2.subject && r1.tutor == r2.tutor
        && i in r1.students && i in r2.students
      ensures r1 == r2
    {
      assert IsRecordOf(d, classpop, w.room, v.assign, timetable, r1);
      assert IsRecordOf(d, classpop, w.room, v.assign, timetable, r2);
      StudentPlacedOnce(d, v, r1.tutor, r1.subject, i);
      SameSessionSameRecord(d, v, w, timetable, records, r1, r2);
    }
  }

  /** The records written after two successful stages form a sound timetable. */
  lemma RecordsSound(d: TimetableData, v: Stage1Values, w: Stage2Values, timetable: int, records: seq<ClassRecord>)
    requires Feasible(d, v) && Feasible2(d, v.scheduled, ClassPopulationOf(d, v), w) && RecordsFrom(d, v, w, timetable, records)
    ensures TimetableSound(d, records)
  {
    RecordsWithinLimits(d, v, w, timetable, records);
    RecordsNoRoomClash(d, v, w, timetable, records);
    RecordsNoTutorClash(d, v, w, timetable, records);
    RecordsPlaceStudents(d, v, w, timetable, records);
    RecordsPlaceStudentsOnce(d, v, w, timetable, records);
  }
}
