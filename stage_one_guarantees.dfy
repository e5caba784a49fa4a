/** What every valuation the stage-1 solver may report as feasible, or as optimal,
    guarantees about the timetable it describes. */
module StageOneGuarantees {
  import opened Seqs
  import opened Sums
  import opened Linearisation
  import opened TimetableData
  import opened StageOne

  /** An enrolled student of a tutor's subject is placed at exactly one timeslot; that
      session runs, and the tutor is available then (helpers.py:88-106). */
  lemma StudentPlacedOnce(d: TimetableData, v: Stage1Values, m: string, j: string, i: string)
    requires AssignBinary(d, v.assign) && ScheduledBinary(d, v.scheduled)
    requires EveryStudentPlaced(d, v.assign) && AttendsOnlyScheduled(d, v.assign, v.scheduled)
    requires WithinAvailability(d, v.scheduled)
    requires m in d.teachers && j in Taught(d, m) && i in Enrolled(d, j)
    ensures exists k :: k in d.times && v.assign(i, j, k, m) == 1
    ensures forall k1, k2 :: k1 in d.times && k2 in d.times && v.assign(i, j, k1, m) == 1 && v.assign(i, j, k2, m) == 1 ==> k1 == k2
    ensures forall k :: k in d.times && v.assign(i, j, k, m) == 1 ==> v.scheduled(j, k, m) == 1 && k in Available(d, m)
  {
    assert Binary(d.times, AssignOverTimes(v.assign, i, j, m)) by {
      forall k | k in d.times ensures 0 <= AssignOverTimes(v.assign, i, j, m)(k) <= 1 {
        assert IsSession(d, j, k, m);
      }
    }
    ExactlyOne(d.times, AssignOverTimes(v.assign, i, j, m));
    forall k | k in d.times && v.assign(i, j, k, m) == 1
      ensures v.scheduled(j, k, m) == 1 && k in Available(d, m)
    {
      assert IsSession(d, j, k, m);
      SessionRunsOnlyWhenAvailable(d, v, j, k, m);
    }
  }

  /** A session only runs at a timeslot where its tutor is available (helpers.py:88-91). */
  lemma SessionRunsOnlyWhenAvailable(d: TimetableData, v: Stage1Values, j: string, k: string, m: string)
    requires ScheduledBinary(d, v.scheduled) && WithinAvailability(d, v.scheduled)
    requires IsSession(d, j, k, m) && v.scheduled(j, k, m) == 1
    ensures k in Available(d, m)
  {
    if k !in Available(d, m) {
      SessionsNonNegAt(d, v, k, m);
      SumAtLeast(Taught(d, m), SessionOverSubjects(v.scheduled, k, m), j);
    }
  }

  /** The session indicators of a tutor at one timeslot are 0 or 1. */
  lemma SessionsNonNegAt(d: TimetableData, v: Stage1Values, k: string, m: string)
    requires ScheduledBinary(d, v.scheduled) && k in d.times && m in d.teachers
    ensures Binary(Taught(d, m), SessionOverSubjects(v.scheduled, k, m))
  {
    forall j | j in Taught(d, m) ensures 0 <= SessionOverSubjects(v.scheduled, k, m)(j) <= 1 {
      assert IsSession(d, j, k, m);
    }
  }

  /** A tutor's subject runs at exactly REPEATS[j] entries of TIMES (helpers.py:112-114); these
      are REPEATS[j] distinct timeslots when TIMES repeats no key. */
  lemma RepeatsExact(d: TimetableData, v: Stage1Values, m: string, j: string)
    requires ScheduledBinary(d, v.scheduled) && RepeatsMet(d, v.scheduled)
    requires m in d.teachers && j in Taught(d, m)
    ensures |Ones(d.times, SessionOverTimes(v.scheduled, j, m))| == Repeats(d, j)
    ensures NoDup(d.times) ==> NoDup(Ones(d.times, SessionOverTimes(v.scheduled, j, m)))
    ensures forall k :: k in d.times ==> (k in Ones(d.times, SessionOverTimes(v.scheduled, j, m)) <==> v.scheduled(j, k, m) == 1)
  {
    forall k | k in d.times ensures 0 <= SessionOverTimes(v.scheduled, j, m)(k) <= 1 {
      assert IsSession(d, j, k, m);
    }
    SumOfBinary(d.times, SessionOverTimes(v.scheduled, j, m));
  }

  /** A tutor teaches at most one subject at any timeslot (helpers.py:132-134). */
  lemma TutorOneAtATime(d: TimetableData, v: Stage1Values, k: string, m: string, j1: string, j2: string)
    requires ScheduledBinary(d, v.scheduled) && OneSessionPerTutor(d, v.scheduled)
    requires k in d.times && m in d.teachers
    requires j1 in Taught(d, m) && j2 in Taught(d, m)
    requires v.scheduled(j1, k, m) == 1 && v.scheduled(j2, k, m) == 1
    ensures j1 == j2
  {
    SessionsNonNegAt(d, v, k, m);
    AtMostOne(Taught(d, m), SessionOverSubjects(v.scheduled, k, m));
  }

  /** A running session holds between `minclasssize` and `maxclasssize` students, and that
      number is the number of its enrolled students who attend; a session that does not run
      holds none (helpers.py:102-106, 157-162). */
  lemma ClassSizeBounds(d: TimetableData, v: Stage1Values, j: string, k: string, m: string)
    requires AssignBinary(d, v.assign) && AttendsOnlyScheduled(d, v.assign, v.scheduled)
    requires ClassSizes(d, v.assign, v.scheduled) && IsSession(d, j, k, m)
    ensures Population(d, v.assign, j, k, m) == |Ones(Enrolled(d, j), Attendance(v.assign, j, k, m))|
    ensures v.scheduled(j, k, m) == 1 ==> d.minClassSize <= Population(d, v.assign, j, k, m) <= d.maxClassSize
    ensures v.scheduled(j, k, m) == 0 ==> Population(d, v.assign, j, k, m) == 0
  {
    var attends := Attendance(v.assign, j, k, m);
    forall i | i in Enrolled(d, j) ensures 0 <= attends(i) <= 1 && attends(i) <= v.scheduled(j, k, m) {
    }
    SumOfBinary(Enrolled(d, j), attends);
    if v.scheduled(j, k, m) == 0 {
      SumZero(Enrolled(d, j), attends);
    }
  }

  /** A tutor's sessions on one day are non-negative. */
  lemma TutorDaySessionsNonNeg(d: TimetableData, v: Stage1Values, m: string, dx: int)
    requires WellFormed(d) && ScheduledBinary(d, v.scheduled)
    requires m in d.teachers && 0 <= dx < |d.day|
    ensures TutorDaySessions(d, v.scheduled, m, dx) >= 0
  {
    var name := d.day[dx];
    assert name in d.days;
    forall j | j in Taught(d, m) ensures SubjectSessionsOnDay(d, v.scheduled, m, name)(j) >= 0 {
      forall k | k in DaySlots(d, name) ensures SessionOverTimes(v.scheduled, j, m)(k) >= 0 {
        assert IsSession(d, j, k, m);
      }
      SumNonNeg(DaySlots(d, name), SessionOverTimes(v.scheduled, j, m));
    }
    SumNonNeg(Taught(d, m), SubjectSessionsOnDay(d, v.scheduled, m, name));
  }

  /** The tutor-day indicator is exactly "the tutor teaches that day", a day holds at most
      ten of their sessions, and `numdaysforteacherssum` counts the days they teach
      (helpers.py:72-80). */
  lemma TutorDayMeaning(d: TimetableData, v: Stage1Values, m: string)
    requires WellFormed(d) && ScheduledBinary(d, v.scheduled)
    requires TutorDaysLinked(d, v.scheduled, v.tutorDay, v.tutorDays) && m in d.teachers
    ensures forall dx :: 0 <= dx < |d.day| ==>
      TutorDaySessions(d, v.scheduled, m, dx) <= 10
      && v.tutorDay(m, dx) == (if TutorDaySessions(d, v.scheduled, m, dx) >= 1 then 1 else 0)
    ensures v.tutorDays(m) == |Ones(DayIndices(|d.day|), TutorDayOverDays(v.tutorDay, m))|
  {
    forall dx | 0 <= dx < |d.day|
      ensures TutorDaySessions(d, v.scheduled, m, dx) <= 10
      ensures v.tutorDay(m, dx) == (if TutorDaySessions(d, v.scheduled, m, dx) >= 1 then 1 else 0)
    {
      TutorDaySessionsNonNeg(d, v, m, dx);
      UsageIndicatorMeaning(v.tutorDay(m, dx), TutorDaySessions(d, v.scheduled, m, dx), 10);
    }
    SumOfBinary(DayIndices(|d.day|), TutorDayOverDays(v.tutorDay, m));
  }

  /** Sessions a student attends at one timeslot are non-negative. */
  lemma StudentSessionsNonNeg(d: TimetableData, v: Stage1Values, i: string, k: string)
    requires AssignBinary(d, v.assign) && k in d.times
    ensures StudentSessionsAt(d, v.assign, i, k) >= 0
  {
    forall m | m in d.teachers ensures TutorStudentSessionsAt(d, v.assign, i, k)(m) >= 0 {
      forall j | j in Taught(d, m) ensures StudentSessionOverSubjects(d, v.assign, i, k, m)(j) >= 0 {
        assert IsSession(d, j, k, m);
      }
      SumNonNeg(Taught(d, m), StudentSessionOverSubjects(d, v.assign, i, k, m));
    }
    SumNonNeg(d.teachers, TutorStudentSessionsAt(d, v.assign, i, k));
  }

  /** The clash indicator of a student at a timeslot is 1 exactly when they attend two or
      more sessions then, no student attends more than seven sessions at once, and
      `StudentSum` counts the timeslots where the student has a clash (helpers.py:137-144). */
  lemma ClashMeaning(d: TimetableData, v: Stage1Values, i: string)
    requires AssignBinary(d, v.assign) && ClashesLinked(d, v.assign, v.clash, v.clashes)
    requires i in d.students
    ensures forall k :: k in d.times ==>
      StudentSessionsAt(d, v.assign, i, k) <= 7
      && (v.clash(i, k) == 1 <==> StudentSessionsAt(d, v.assign, i, k) >= 2)
    ensures v.clashes(i) == |Ones(d.times, ClashOverTimes(v.clash, i))|
  {
    forall k | k in d.times
      ensures StudentSessionsAt(d, v.assign, i, k) <= 7
      ensures v.clash(i, k) == 1 <==> StudentSessionsAt(d, v.assign, i, k) >= 2
    {
      StudentSessionsNonNeg(d, v, i, k);
      ClashIndicatorMeaning(v.clash(i, k), StudentSessionsAt(d, v.assign, i, k));
    }
    SumOfBinary(d.times, ClashOverTimes(v.clash, i));
  }

  /** At an optimum the projector overflow of every timeslot is exactly
      `max(0, projector sessions - numroomsprojector)`: anything larger could be lowered
      without breaking a constraint, which would lower the objective (helpers.py:126-129, 166). */
  lemma ProjectorOverflowAtOptimum(d: TimetableData, v: Stage1Values, k: string)
    requires Optimal(d, v) && k in d.times
    ensures v.projectorOverflow(k) == Max0(ProjectorSessionsAt(d, v.scheduled, k) - d.numRoomsProjector)
  {
    var best := Max0(v.projectorExcess(k));
    if v.projectorOverflow(k) != best {
      assert v.projectorOverflow(k) > best;
      var lowered := k' => if k' == k then best else v.projectorOverflow(k');
      var w := v.(projectorOverflow := lowered);
      assert ProjectorShortage(d, w.scheduled, w.projectorExcess, w.projectorOverflow);
      assert Feasible(d, w);
      assert Objective(d, v) <= Objective(d, w);
      SumStrictlyLess(d.times, w.projectorOverflow, v.projectorOverflow, k);
      assert false;
    }
  }

  /** At most `len(ROOMS)` tutors teach at any timeslot: a tutor counts once there exactly
      when one of their subjects runs then, and the sessions there number at most
      `len(ROOMS)` (helpers.py:119-120, 132-134). */
  lemma TutorsAtTimeWithinRooms(d: TimetableData, v: Stage1Values, k: string)
    requires ScheduledBinary(d, v.scheduled) && OneSessionPerTutor(d, v.scheduled)
    requires RoomsSuffice(d, v.scheduled) && k in d.times
    ensures forall m :: m in d.teachers ==>
      (m in Ones(d.teachers, TutorSessionsAt(d, v.scheduled, k)) <==>
       exists j :: j in Taught(d, m) && v.scheduled(j, k, m) == 1)
    ensures |Ones(d.teachers, TutorSessionsAt(d, v.scheduled, k))| <= |d.rooms|
  {
    forall m | m in d.teachers
      ensures 0 <= TutorSessionsAt(d, v.scheduled, k)(m) <= 1
      ensures TutorSessionsAt(d, v.scheduled, k)(m) == 1 <==> exists j :: j in Taught(d, m) && v.scheduled(j, k, m) == 1
    {
      TutorTeachesAt(d, v, k, m);
    }
    SumOfBinary(d.teachers, TutorSessionsAt(d, v.scheduled, k));
  }

  /** A tutor's sessions at one timeslot number 0 or 1, and 1 exactly when one of their
      subjects runs then. */
  lemma TutorTeachesAt(d: TimetableData, v: Stage1Values, k: string, m: string)
    requires ScheduledBinary(d, v.scheduled) && OneSessionPerTutor(d, v.scheduled)
    requires k in d.times && m in d.teachers
    ensures 0 <= TutorSessionsAt(d, v.scheduled, k)(m) <= 1
    ensures TutorSessionsAt(d, v.scheduled, k)(m) == 1 <==> exists j :: j in Taught(d, m) && v.scheduled(j, k, m) == 1
  {
    var f := SessionOverSubjects(v.scheduled, k, m);
    SessionsNonNegAt(d, v, k, m);
    SumOfBinary(Taught(d, m), f);
    var ones := Ones(Taught(d, m), f);
    if exists j :: j in Taught(d, m) && v.scheduled(j, k, m) == 1 {
      var j :| j in Taught(d, m) && v.scheduled(j, k, m) == 1;
      assert f(j) == 1;
      assert j in ones;
    }
    if |ones| > 0 {
      assert ones[0] in ones;
      assert f(ones[0]) == 1;
    }
  }

  /** A timeslot's sessions are non-negative, and none run there exactly when every
      tutor's subject is off then. */
  lemma NoSessionsAt(d: TimetableData, v: Stage1Values, k: string)
    requires ScheduledBinary(d, v.scheduled) && k in d.times
    ensures SessionsAt(d, v.scheduled, k) >= 0
    ensures SessionsAt(d, v.scheduled, k) == 0 <==>
      forall m, j :: m in d.teachers && j in Taught(d, m) ==> v.scheduled(j, k, m) == 0
  {
    var g := TutorSessionsAt(d, v.scheduled, k);
    forall m | m in d.teachers ensures g(m) >= 0 {
      SessionsNonNegAt(d, v, k, m);
      SumNonNeg(Taught(d, m), SessionOverSubjects(v.scheduled, k, m));
    }
    SumNonNeg(d.teachers, g);
    if SessionsAt(d, v.scheduled, k) == 0 {
      SumZeroEach(d.teachers, g);
      forall m, j | m in d.teachers && j in Taught(d, m) ensures v.scheduled(j, k, m) == 0 {
        SessionsNonNegAt(d, v, k, m);
        SumZeroEach(Taught(d, m), SessionOverSubjects(v.scheduled, k, m));
      }
    }
    if forall m, j :: m in d.teachers && j in Taught(d, m) ==> v.scheduled(j, k, m) == 0 {
      forall m | m in d.teachers ensures g(m) == 0 {
        SumZero(Taught(d, m), SessionOverSubjects(v.scheduled, k, m));
      }
      SumZero(d.teachers, g);
    }
  }

  /** The 9:30 term of the objective is 0 exactly when no session runs at a non-preferred
      timeslot (helpers.py:147-152, 165). */
  lemma NonPreferredTermZero(d: TimetableData, v: Stage1Values)
    requires ScheduledBinary(d, v.scheduled) && NonPreferredCounted(d, v.scheduled, v.nonPreferred)
    ensures Sum(d.times, v.nonPreferred) >= 0
    ensures Sum(d.times, v.nonPreferred) == 0 <==>
      forall k, m, j :: k in d.times && k in d.nonPreferredTimes && m in d.teachers && j in Taught(d, m) ==>
        v.scheduled(j, k, m) == 0
  {
    SumNonNeg(d.times, v.nonPreferred);
    if Sum(d.times, v.nonPreferred) == 0 {
      SumZeroEach(d.times, v.nonPreferred);
      forall k, m, j | k in d.times && k in d.nonPreferredTimes && m in d.teachers && j in Taught(d, m)
        ensures v.scheduled(j, k, m) == 0
      {
        NoSessionsAt(d, v, k);
      }
    }
    if forall k, m, j :: k in d.times && k in d.nonPreferredTimes && m in d.teachers && j in Taught(d, m) ==>
        v.scheduled(j, k, m) == 0 {
      forall k | k in d.times ensures v.nonPreferred(k) == 0 {
        NoSessionsAt(d, v, k);
      }
      SumZero(d.times, v.nonPreferred);
    }
  }
}
