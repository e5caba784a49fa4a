/** The `classpop` dictionary built between the two stages (timetabler/helpers.py:172-177):
    for every session the stage-1 solver schedules, the number of students it assigns to it. */
module ClassPopulation {
  import opened Seqs
  import opened Sums
  import opened TimetableData
  import opened StageOne
  import opened StageOneGuarantees

  /** A `(j, k, m)` key: subject, timeslot, tutor. */
  datatype Session = Session(subject: string, time: string, tutor: string)

  /** Every index of SubjectVariables. */
  function Sessions(d: TimetableData): (r: set<Session>)
    ensures forall t :: t in r <==> IsSession(d, t.subject, t.time, t.tutor)
  {
    set m, j, k | m in d.teachers && j in Taught(d, m) && k in d.times :: Session(j, k, m)
  }

  /** `subject_vars[(j, k, m)].varValue == 1` */
  predicate Running(v: Stage1Values, t: Session) {
    v.scheduled(t.subject, t.time, t.tutor) == 1
  }

  /** The students the solver puts in a session. */
  function Headcount(d: TimetableData, v: Stage1Values, t: Session): int {
    Population(d, v.assign, t.subject, t.time, t.tutor)
  }

  /** The dictionary the source builds: one entry per running session. */
  function ClassPopulationOf(d: TimetableData, v: Stage1Values): (classpop: map<Session, int>)
    ensures forall t :: t in classpop <==> IsSession(d, t.subject, t.time, t.tutor) && Running(v, t)
  {
    map t | t in Sessions(d) && Running(v, t) :: Headcount(d, v, t)
  }

  /** Every entry holds the headcount of its session. */
  ghost predicate Counted(d: TimetableData, v: Stage1Values, classpop: map<Session, int>) {
    forall t :: t in classpop ==> classpop[t] == Headcount(d, v, t)
  }

  /** The loops of helpers.py:172-177, over the values the stage-1 solver reports. */
  method ExtractClassPopulation(d: TimetableData, v: Stage1Values) returns (classpop: map<Session, int>)
    ensures classpop == ClassPopulationOf(d, v)
  {
    classpop := map[];
    var a := 0;
    while a < |d.teachers|
      invariant 0 <= a <= |d.teachers|
      invariant forall t :: t in classpop <==> Running(v, t) && t.tutor in d.teachers[..a] && t.subject in Taught(d, t.tutor) && t.time in d.times
      invariant Counted(d, v, classpop)
    {
      var m := d.teachers[a];
      classpop := AddTutorSessions(d, v, m, classpop);
      assert d.teachers[..a + 1] == d.teachers[..a] + [m];
      a := a + 1;
    }
    assert d.teachers[..a] == d.teachers;
  }

  /** The middle loop: the running sessions of every subject of tutor `m`. */
  method AddTutorSessions(d: TimetableData, v: Stage1Values, m: string, classpop0: map<Session, int>) returns (classpop: map<Session, int>)
    requires Counted(d, v, classpop0)
    ensures Counted(d, v, classpop)
    ensures forall t :: t in classpop <==> t in classpop0 || (Running(v, t) && t.tutor == m && t.subject in Taught(d, m) && t.time in d.times)
  {
    classpop := classpop0;
    var subjects := Taught(d, m);
    var b := 0;
    while b < |subjects|
      invariant 0 <= b <= |subjects|
      invariant Counted(d, v, classpop)
      invariant forall t :: t in classpop <==> t in classpop0 || (Running(v, t) && t.tutor == m && t.subject in subjects[..b] && t.time in d.times)
    {
      var j := subjects[b];
      classpop := AddSubjectSessions(d, v, j, m, classpop);
      assert subjects[..b + 1] == subjects[..b] + [j];
      b := b + 1;
    }
    assert subjects[..b] == subjects;
  }

  /** The inner loop: the running sessions of subject `j` with tutor `m`. */
  method AddSubjectSessions(d: TimetableData, v: Stage1Values, j: string, m: string, classpop0: map<Session, int>) returns (classpop: map<Session, int>)
    requires Counted(d, v, classpop0)
    ensures Counted(d, v, classpop)
    ensures forall t :: t in classpop <==> t in classpop0 || (Running(v, t) && t.tutor == m && t.subject == j && t.time in d.times)
  {
    classpop := classpop0;
    var c := 0;
    while c < |d.times|
      invariant 0 <= c <= |d.times|
      invariant Counted(d, v, classpop)
      invariant forall t :: t in classpop <==> t in classpop0 || (Running(v, t) && t.tutor == m && t.subject == j && t.time in d.times[..c])
    {
      var k := d.times[c];
      if v.scheduled(j, k, m) == 1 {
        classpop := classpop[Session(j, k, m) := Population(d, v.assign, j, k, m)];
      }
      assert d.times[..c + 1] == d.times[..c] + [k];
      c := c + 1;
    }
    assert d.times[..c] == d.times;
  }

  /** Under the stage-1 constraints every entry of `classpop` is the number of enrolled
      students attending that session and lies within the class-size limits
      (helpers.py:157-162, 172-177). */
  lemma ClassPopulationBounds(d: TimetableData, v: Stage1Values)
    requires AssignBinary(d, v.assign) && AttendsOnlyScheduled(d, v.assign, v.scheduled)
    requires ClassSizes(d, v.assign, v.scheduled)
    ensures forall t :: t in ClassPopulationOf(d, v) ==>
      ClassPopulationOf(d, v)[t] == |Ones(Enrolled(d, t.subject), Attendance(v.assign, t.subject, t.time, t.tutor))|
      && d.minClassSize <= ClassPopulationOf(d, v)[t] <= d.maxClassSize
  {
    var classpop := ClassPopulationOf(d, v);
    forall t | t in classpop
      ensures classpop[t] == |Ones(Enrolled(d, t.subject), Attendance(v.assign, t.subject, t.time, t.tutor))|
      ensures d.minClassSize <= classpop[t] <= d.maxClassSize
    {
      ClassSizeBounds(d, v, t.subject, t.time, t.tutor);
    }
  }
}
