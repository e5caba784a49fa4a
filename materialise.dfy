/** `add_classes_to_timetable_twostep` (timetabler/models.py:810-831): turning the solved
    values of both stages into TimetabledClass records. The database writes become a list of
    records; the ORM lookups of subject, timeslot, tutor and room by name are replaced by the
    names themselves. */
module Materialise {
  import opened Seqs
  import opened Sums
  import opened TimetableData
  import opened StageOne
  import opened ClassPopulation
  import opened StageTwo

  /** A TimetabledClass as created at models.py:824-831. */
  datatype ClassRecord = ClassRecord(
    subject: string,
    time: string,
    tutor: string,
    room: string,
    timetable: int,
    students: seq<string>)

  function SessionOf(r: ClassRecord): Session {
    Session(r.subject, r.time, r.tutor)
  }

  /** The students of a session: those enrolled in its subject whose assignment is 1, in
      SUBJECTMAPPING order (models.py:827-831). */
  function Attendees(d: TimetableData, assign: Assign, t: Session): seq<string> {
    Ones(Enrolled(d, t.subject), Attendance(assign, t.subject, t.time, t.tutor))
  }

  /** Reference definition: `r` is the record of a session of classpop placed in one of the
      rooms, carrying that session's attendees. */
  ghost predicate IsRecordOf(d: TimetableData, classpop: Classpop, room: RoomAssign, assign: Assign, timetable: int, r: ClassRecord) {
    && IsSession(d, r.subject, r.time, r.tutor)
    && SessionOf(r) in classpop
    && r.room in d.rooms
    && room(SessionOf(r), r.room) == 1
    && r.timetable == timetable
    && r.students == Attendees(d, assign, SessionOf(r))
  }

  /** The nested loops of models.py:813-831: the records are exactly those of the sessions of
      classpop in the rooms they were given, and, when no index list repeats an entry, each
      is written once. A key repeated in TIMES or ROOMS writes its records again. */
  method AddClassesToTimetable(d: TimetableData, classpop: Classpop, room: RoomAssign, assign: Assign, timetable: int)
    returns (records: seq<ClassRecord>)
    ensures forall r :: r in records <==> IsRecordOf(d, classpop, room, assign, timetable, r)
    ensures Distinct(d) ==> NoDup(records)
  {
    records := [];
    var a := 0;
    while a < |d.teachers|
      invariant 0 <= a <= |d.teachers|
      invariant forall r :: r in records <==> IsRecordOf(d, classpop, room, assign, timetable, r) && r.tutor in d.teachers[..a]
      invariant Distinct(d) ==> NoDup(records)
    {
      var m := d.teachers[a];
      if Distinct(d) {
        NoDupBefore(d.teachers, a);
      }
      records := AddTutorClasses(d, classpop, room, assign, timetable, m, records);
      assert d.teachers[..a + 1] == d.teachers[..a] + [m];
      a := a + 1;
    }
    assert d.teachers[..a] == d.teachers;
  }

  /** `for j in TEACHERMAPPING[m]` */
  method AddTutorClasses(d: TimetableData, classpop: Classpop, room: RoomAssign, assign: Assign, timetable: int, m: string, records0: seq<ClassRecord>)
    returns (records: seq<ClassRecord>)
    requires m in d.teachers
    ensures forall r :: r in records <==> r in records0 || (IsRecordOf(d, classpop, room, assign, timetable, r) && r.tutor == m)
    ensures (NoDup(records0) && NoDup(Taught(d, m)) && NoDup(d.times) && NoDup(d.rooms)
      && (forall r :: r in records0 ==> r.tutor != m)) ==> NoDup(records)
  {
    records := records0;
    var subjects := Taught(d, m);
    ghost var apart := NoDup(records0) && NoDup(subjects) && NoDup(d.times) && NoDup(d.rooms)
      && (forall r :: r in records0 ==> r.tutor != m);
    var b := 0;
    while b < |subjects|
      invariant 0 <= b <= |subjects|
      invariant forall r :: r in records <==> r in records0 || (IsRecordOf(d, classpop, room, assign, timetable, r) && r.tutor == m && r.subject in subjects[..b])
      invariant apart ==> NoDup(records)
    {
      var j := subjects[b];
      if apart {
        NoDupBefore(subjects, b);
      }
      records := AddSubjectClasses(d, classpop, room, assign, timetable, m, j, records);
      assert subjects[..b + 1] == subjects[..b] + [j];
      b := b + 1;
    }
    assert subjects[..b] == subjects;
  }

  /** `for k in TIMES` */
  method AddSubjectClasses(d: TimetableData, classpop: Classpop, room: RoomAssign, assign: Assign, timetable: int, m: string, j: string, records0: seq<ClassRecord>)
    returns (records: seq<ClassRecord>)
    requires m in d.teachers && j in Taught(d, m)
    ensures forall r :: r in records <==> r in records0 || (IsRecordOf(d, classpop, room, assign, timetable, r) && r.tutor == m && r.subject == j)
    ensures (NoDup(records0) && NoDup(d.times) && NoDup(d.rooms)
      && (forall r :: r in records0 ==> r.tutor != m || r.subject != j)) ==> NoDup(records)
  {
    records := records0;
    ghost var apart := NoDup(records0) && NoDup(d.times) && NoDup(d.rooms)
      && (forall r :: r in records0 ==> r.tutor != m || r.subject != j);
    var c := 0;
    while c < |d.times|
      invariant 0 <= c <= |d.times|
      invariant forall r :: r in records <==> r in records0 || (IsRecordOf(d, classpop, room, assign, timetable, r) && r.tutor == m && r.subject == j && r.time in d.times[..c])
      invariant apart ==> NoDup(records)
    {
      var k := d.times[c];
      if apart {
        NoDupBefore(d.times, c);
      }
      records := AddSessionClasses(d, classpop, room, assign, timetable, Session(j, k, m), records);
      assert d.times[..c + 1] == d.times[..c] + [k];
      c := c + 1;
    }
    assert d.times[..c] == d.times;
  }

  /** `for n in ROOMS`: the record of session `t` in every room whose variable is 1, if `t` is
      a key of classpop. */
  method AddSessionClasses(d: TimetableData, classpop: Classpop, room: RoomAssign, assign: Assign, timetable: int, t: Session, records0: seq<ClassRecord>)
    returns (records: seq<ClassRecord>)
    requires IsSession(d, t.subject, t.time, t.tutor)
    ensures forall r :: r in records <==> r in records0 || (IsRecordOf(d, classpop, room, assign, timetable, r) && SessionOf(r) == t)
    ensures NoDup(records0) && NoDup(d.rooms) && (forall r :: r in records0 ==> SessionOf(r) != t) ==> NoDup(records)
  {
    records := records0;
    ghost var apart := NoDup(records0) && NoDup(d.rooms) && (forall r :: r in records0 ==> SessionOf(r) != t);
    var c := 0;
    while c < |d.rooms|
      invariant 0 <= c <= |d.rooms|
      invariant forall r :: r in records <==> r in records0 || (IsRecordOf(d, classpop, room, assign, timetable, r) && SessionOf(r) == t && r.room in d.rooms[..c])
      invariant apart ==> NoDup(records)
    {
      var n := d.rooms[c];
      if t in classpop && room(t, n) == 1 {
        var students := CollectAttendees(d, assign, t);
        var record := ClassRecord(t.subject, t.time, t.tutor, n, timetable, students);
        if apart {
          NoDupBefore(d.rooms, c);
          NoDupSnoc(records, record);
        }
        records := records + [record];
      }
      assert d.rooms[..c + 1] == d.rooms[..c] + [n];
      c := c + 1;
    }
    assert d.rooms[..c] == d.rooms;
  }

  /** `for i in SUBJECTMAPPING[j]: if assign_vars[(i, j, k, m)].varValue == 1: append` */
  method CollectAttendees(d: TimetableData, assign: Assign, t: Session) returns (students: seq<string>)
    ensures students == Attendees(d, assign, t)
  {
    var enrolled := Enrolled(d, t.subject);
    var attends := Attendance(assign, t.subject, t.time, t.tutor);
    students := [];
    var p := 0;
    while p < |enrolled|
      invariant 0 <= p <= |enrolled|
      invariant students == Ones(enrolled[..p], attends)
    {
      var i := enrolled[p];
      OnesPrefixStep(enrolled, attends, p);
      if assign(i, t.subject, t.time, t.tutor) == 1 {
        students := students + [i];
      }
      p := p + 1;
    }
    assert enrolled[..p] == enrolled;
  }

  /** What one more enrolled student adds to the attendees of a prefix. */
  lemma OnesPrefixStep(s: seq<string>, f: string -> int, p: nat)
    requires p < |s|
    ensures f(s[p]) == 1 ==> Ones(s[..p + 1], f) == Ones(s[..p], f) + [s[p]]
    ensures f(s[p]) != 1 ==> Ones(s[..p + 1], f) == Ones(s[..p], f)
  {
    OnesSnoc(s[..p], f, s[p]);
    assert s[..p + 1] == s[..p] + [s[p]];
    assert Ones(s[..p], f) + [] == Ones(s[..p], f);
  }
}
