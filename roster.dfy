/** The roster database (timetabler/models.py:89-447) as values: one datatype per table row,
    rows identified by their position, and each relationship stored once, on the side the
    request handlers change. The other side of a relationship (SQLAlchemy's backref) is a
    function of the tables, listing ids in id order. */
module Roster {
  import opened Seqs

  /** The year / study period / timetable that the Admin table names current
      (models.py:619-652), passed explicitly. */
  datatype Context = Context(year: int, studyperiod: string, timetable: nat)

  /** A student and the subjects they are enrolled in (the substumap table). */
  datatype Student = Student(code: string, name: string, year: int, studyperiod: string, subjects: seq<nat>)

  /** A subject; `tutor` is the subtutmap link, `needsProjector` a nullable Boolean. */
  datatype Subject = Subject(
    subcode: string, subname: string, year: int, studyperiod: string,
    repeats: int, needsProjector: Option<bool>, tutor: Option<nat>)

  /** A tutor, their available timeslots (the tutoravailabilitymap table) and their user. */
  datatype Tutor = Tutor(name: string, year: int, studyperiod: string, availableTimes: seq<nat>, user: Option<nat>)

  /** A timeslot of a timetable; `preferred` is a nullable Boolean. */
  datatype Timeslot = Timeslot(
    day: string, time: string, dayNumeric: nat, year: int, studyperiod: string,
    timetable: nat, preferred: Option<bool>)

  /** A room; projector flag and capacity are nullable. */
  datatype Room = Room(name: string, projector: Option<bool>, capacity: Option<int>)

  /** A TimetabledClass and its students (the stutimetable table). */
  datatype TimetabledClass = TimetabledClass(
    subject: nat, timetable: nat, time: nat, tutor: nat, room: Option<nat>,
    year: int, studyperiod: string, students: seq<nat>)

  /** A login; `isAdmin` is the string column of models.py:119. */
  datatype User = User(username: string, password: string, year: int, studyperiod: string, isAdmin: string)

  /** The whole database. A deleted class leaves `None` behind so that ids stay stable. */
  datatype Roster = Roster(
    students: seq<Student>,
    subjects: seq<Subject>,
    tutors: seq<Tutor>,
    timeslots: seq<Timeslot>,
    rooms: seq<Room>,
    classes: seq<Option<TimetabledClass>>,
    users: seq<User>)

  /** Every stored id points at an existing row. */
  ghost predicate Linked(r: Roster) {
    && (forall i, s :: 0 <= i < |r.students| && s in r.students[i].subjects ==> s < |r.subjects|)
    && (forall s :: 0 <= s < |r.subjects| && r.subjects[s].tutor.Some? ==> r.subjects[s].tutor.value < |r.tutors|)
    && (forall t, ts :: 0 <= t < |r.tutors| && ts in r.tutors[t].availableTimes ==> ts < |r.timeslots|)
    && (forall t :: 0 <= t < |r.tutors| && r.tutors[t].user.Some? ==> r.tutors[t].user.value < |r.users|)
    && (forall c :: 0 <= c < |r.classes| && r.classes[c].Some? ==> ClassLinked(r, r.classes[c].value))
  }

  ghost predicate ClassLinked(r: Roster, k: TimetabledClass) {
    && k.subject < |r.subjects| && k.time < |r.timeslots| && k.tutor < |r.tutors|
    && (k.room.Some? ==> k.room.value < |r.rooms|)
    && (forall i :: i in k.students ==> i < |r.students|)
  }

  /** The ids below `n` satisfying `keep`, in increasing order, each once. */
  function IdsWhere(n: nat, keep: nat -> bool): (ids: seq<nat>)
    ensures forall x: nat :: x in ids <==> x < n && keep(x)
    ensures NoDup(ids)
  {
    if n == 0 then []
    else
      var prefix := IdsWhere(n - 1, keep);
      if keep(n - 1) then prefix + [n - 1] else prefix
  }

  /** Selections that agree on every id below `n` select the same ids. */
  lemma {:induction false} IdsWhereAgree(n: nat, keep: nat -> bool, keep': nat -> bool)
    requires forall x: nat :: x < n ==> keep(x) == keep'(x)
    ensures IdsWhere(n, keep) == IdsWhere(n, keep')
  {
    if n > 0 {
      IdsWhereAgree(n - 1, keep, keep');
    }
  }

  /** Selecting every id below `n` lists them all, in order. */
  lemma {:induction false} IdsWhereAll(n: nat, keep: nat -> bool)
    requires forall x: nat :: x < n ==> keep(x)
    ensures |IdsWhere(n, keep)| == n
    ensures forall p :: 0 <= p < n ==> IdsWhere(n, keep)[p] == p
  {
    if n > 0 {
      IdsWhereAll(n - 1, keep);
    }
  }

  /** `subject.students`: the backref of substumap. */
  function SubjectStudents(r: Roster, s: nat): seq<nat> {
    IdsWhere(|r.students|, (i: nat) => i < |r.students| && s in r.students[i].subjects)
  }

  /** `tutor.subjects`: the subjects linked to the tutor. */
  function TutorSubjects(r: Roster, t: nat): seq<nat> {
    IdsWhere(|r.subjects|, (s: nat) => s < |r.subjects| && r.subjects[s].tutor == Some(t))
  }

  /** `subject.timetabledclasses` */
  function SubjectClasses(r: Roster, s: nat): seq<nat> {
    IdsWhere(|r.classes|, (c: nat) => c < |r.classes| && r.classes[c].Some? && r.classes[c].value.subject == s)
  }

  /** `timeslot.timetabledclasses` */
  function TimeslotClasses(r: Roster, ts: nat): seq<nat> {
    IdsWhere(|r.classes|, (c: nat) => c < |r.classes| && r.classes[c].Some? && r.classes[c].value.time == ts)
  }

  /** `student.timetabledclasses`: the backref of stutimetable. */
  function StudentClasses(r: Roster, i: nat): seq<nat> {
    IdsWhere(|r.classes|, (c: nat) => c < |r.classes| && r.classes[c].Some? && i in r.classes[c].value.students)
  }

  /** `room.timetabledclasses` */
  function RoomClasses(r: Roster, n: nat): seq<nat> {
    IdsWhere(|r.classes|, (c: nat) => c < |r.classes| && r.classes[c].Some? && r.classes[c].value.room == Some(n))
  }

  /** `Timeslot.get_all()`: the timeslots of the current year and study period (models.py:79-86). */
  function CurrentTimeslots(r: Roster, ctx: Context): seq<nat> {
    IdsWhere(|r.timeslots|, (ts: nat) => ts < |r.timeslots| && r.timeslots[ts].year == ctx.year && r.timeslots[ts].studyperiod == ctx.studyperiod)
  }

  /** A timeslot's key in the engine's index sets: `day + " " + time` (models.py:739, 763). */
  function SlotKey(ts: Timeslot): string {
    ts.day + " " + ts.time
  }
}
