/** Stage 1 of `runtimetable_with_rooms_two_step` (timetabler/helpers.py:41-166): the
    class / timeslot / tutor assignment programme.

    The programme is not solved here. Its constraint system is the predicate `Feasible` over an
    integer valuation of its variables, its objective the function `Objective`, and what the
    solver reports as `Optimal` is a feasible valuation of least objective (`Optimal`). The
    lemmas state what any feasible, or any optimal, valuation guarantees. */
module StageOne {
  import opened Seqs
  import opened Sums
  import opened Linearisation
  import opened TimetableData

  /** One value per PuLP variable family of stage 1. Keys outside a family's index set are
      never read by the constraints. */
  datatype Stage1Values = Stage1Values(
    assign: (string, string, string, string) -> int, // StudentVariables[(i, j, k, m)]
    scheduled: (string, string, string) -> int,      // SubjectVariables[(j, k, m)]
    nonPreferred: string -> int,                     // 930Classes[k]
    tutorDay: (string, int) -> int,                  // numdaysforteachers[(m, d)]
    tutorDays: string -> int,                        // numdaysforteacherssum[m]
    clash: (string, string) -> int,                  // StudentTime[(i, k)]
    clashes: string -> int,                          // StudentSum[i]
    projectorExcess: string -> int,                  // ProjectorSum[k]
    projectorOverflow: string -> int)                // ProjectorPositivePart[k]

  // ---------------------------------------------------------------------------------------
  // The linear expressions of the programme, as sums of named summand families. Each takes
  // only the variable family it reads, so that changing another family leaves it unchanged.

  type Assign = (string, string, string, string) -> int
  type Scheduled = (string, string, string) -> int

  /** k -> assign[(i, j, k, m)] */
  function AssignOverTimes(assign: Assign, i: string, j: string, m: string): string -> int {
    k => assign(i, j, k, m)
  }

  /** k -> scheduled[(j, k, m)] */
  function SessionOverTimes(scheduled: Scheduled, j: string, m: string): string -> int {
    k => scheduled(j, k, m)
  }

  /** j -> scheduled[(j, k, m)] */
  function SessionOverSubjects(scheduled: Scheduled, k: string, m: string): string -> int {
    j => scheduled(j, k, m)
  }

  /** m -> sessions of tutor m at k */
  function TutorSessionsAt(d: TimetableData, scheduled: Scheduled, k: string): string -> int {
    m => Sum(Taught(d, m), SessionOverSubjects(scheduled, k, m))
  }

  /** Sessions running at timeslot k (helpers.py:120, 149). */
  function SessionsAt(d: TimetableData, scheduled: Scheduled, k: string): int {
    Sum(d.teachers, TutorSessionsAt(d, scheduled, k))
  }

  /** j -> scheduled[(j, k, m)] if j needs a projector */
  function ProjectorSessionOverSubjects(d: TimetableData, scheduled: Scheduled, k: string, m: string): string -> int {
    j => if j in d.projectors then scheduled(j, k, m) else 0
  }

  function TutorProjectorSessionsAt(d: TimetableData, scheduled: Scheduled, k: string): string -> int {
    m => Sum(Taught(d, m), ProjectorSessionOverSubjects(d, scheduled, k, m))
  }

  /** Sessions needing a projector at timeslot k (helpers.py:127). */
  function ProjectorSessionsAt(d: TimetableData, scheduled: Scheduled, k: string): int {
    Sum(d.teachers, TutorProjectorSessionsAt(d, scheduled, k))
  }

  /** j -> sessions of (j, m) at the timeslots of the day `name` */
  function SubjectSessionsOnDay(d: TimetableData, scheduled: Scheduled, m: string, name: string): string -> int {
    j => Sum(DaySlots(d, name), SessionOverTimes(scheduled, j, m))
  }

  /** Sessions tutor m teaches on the day `day[dx]` (helpers.py:75-78). */
  function TutorDaySessions(d: TimetableData, scheduled: Scheduled, m: string, dx: int): int
    requires 0 <= dx < |d.day|
  {
    Sum(Taught(d, m), SubjectSessionsOnDay(d, scheduled, m, d.day[dx]))
  }

  /** j -> assign[(i, j, k, m)] if i is enrolled in j */
  function StudentSessionOverSubjects(d: TimetableData, assign: Assign, i: string, k: string, m: string): string -> int {
    j => if i in Enrolled(d, j) then assign(i, j, k, m) else 0
  }

  function TutorStudentSessionsAt(d: TimetableData, assign: Assign, i: string, k: string): string -> int {
    m => Sum(Taught(d, m), StudentSessionOverSubjects(d, assign, i, k, m))
  }

  /** Sessions student i attends at timeslot k (helpers.py:139-142). */
  function StudentSessionsAt(d: TimetableData, assign: Assign, i: string, k: string): int {
    Sum(d.teachers, TutorStudentSessionsAt(d, assign, i, k))
  }

  /** i -> assign[(i, j, k, m)] */
  function Attendance(assign: Assign, j: string, k: string, m: string): string -> int {
    i => assign(i, j, k, m)
  }

  /** Students attending the session (j, k, m) (helpers.py:160-162, 177). */
  function Population(d: TimetableData, assign: Assign, j: string, k: string, m: string): int {
    Sum(Enrolled(d, j), Attendance(assign, j, k, m))
  }

  /** k -> StudentTime[(i, k)] */
  function ClashOverTimes(clash: (string, string) -> int, i: string): string -> int {
    k => clash(i, k)
  }

  /** dx -> numdaysforteachers[(m, dx)] */
  function TutorDayOverDays(tutorDay: (string, int) -> int, m: string): int -> int {
    dx => tutorDay(m, dx)
  }

  /** The day indices `range(len(day))`. */
  function DayIndices(n: nat): (r: seq<int>)
    ensures |r| == n
    ensures forall dx :: dx in r <==> 0 <= dx < n
  {
    if n == 0 then [] else DayIndices(n - 1) + [n - 1]
  }

  // ---------------------------------------------------------------------------------------
  // The constraint system, group by group.

  /** A (subject, timeslot, tutor) index of SubjectVariables (helpers.py:50). */
  predicate IsSession(d: TimetableData, j: string, k: string, m: string) {
    m in d.teachers && j in Taught(d, m) && k in d.times
  }

  /** StudentVariables and SubjectVariables are binary over their index sets (helpers.py:45-51). */
  ghost predicate AssignBinary(d: TimetableData, assign: Assign) {
    forall i, j, k, m :: IsSession(d, j, k, m) && i in Enrolled(d, j) ==> 0 <= assign(i, j, k, m) <= 1
  }

  ghost predicate ScheduledBinary(d: TimetableData, scheduled: Scheduled) {
    forall j, k, m :: IsSession(d, j, k, m) ==> 0 <= scheduled(j, k, m) <= 1
  }

  /** A tutor's binary day indicator lies between a tenth of their sessions that day and
      the count itself, and the non-negative per-tutor total adds the indicators up
      (helpers.py:56-60, 72-80). */
  ghost predicate TutorDaysLinked(d: TimetableData, scheduled: Scheduled, tutorDay: (string, int) -> int, tutorDays: string -> int) {
    && (forall m, dx :: m in d.teachers && 0 <= dx < |d.day| ==>
          0 <= tutorDay(m, dx) <= 1
          && 10 * tutorDay(m, dx) >= TutorDaySessions(d, scheduled, m, dx)
          && tutorDay(m, dx) <= TutorDaySessions(d, scheduled, m, dx))
    && (forall m :: m in d.teachers ==>
          tutorDays(m) >= 0 && tutorDays(m) == Sum(DayIndices(|d.day|), TutorDayOverDays(tutorDay, m)))
  }

  /** No session of a tutor at a timeslot outside their availability (helpers.py:88-91). */
  ghost predicate WithinAvailability(d: TimetableData, scheduled: Scheduled) {
    forall m, k :: m in d.teachers && k in d.times && k !in Available(d, m) ==>
      Sum(Taught(d, m), SessionOverSubjects(scheduled, k, m)) == 0
  }

  /** Every enrolled student takes one timeslot of each subject (helpers.py:95-98). */
  ghost predicate EveryStudentPlaced(d: TimetableData, assign: Assign) {
    forall m, j, i :: m in d.teachers && j in Taught(d, m) && i in Enrolled(d, j) ==>
      Sum(d.times, AssignOverTimes(assign, i, j, m)) == 1
  }

  /** A student only attends a session that runs (helpers.py:102-106). */
  ghost predicate AttendsOnlyScheduled(d: TimetableData, assign: Assign, scheduled: Scheduled) {
    forall i, j, k, m :: IsSession(d, j, k, m) && i in Enrolled(d, j) ==> assign(i, j, k, m) <= scheduled(j, k, m)
  }

  /** A subject runs REPEATS[j] sessions (helpers.py:112-114). */
  ghost predicate RepeatsMet(d: TimetableData, scheduled: Scheduled) {
    forall m, j :: m in d.teachers && j in Taught(d, m) ==> Sum(d.times, SessionOverTimes(scheduled, j, m)) == Repeats(d, j)
  }

  /** No more sessions at a timeslot than there are rooms (helpers.py:119-120). */
  ghost predicate RoomsSuffice(d: TimetableData, scheduled: Scheduled) {
    forall k :: k in d.times ==> SessionsAt(d, scheduled, k) <= |d.rooms|
  }

  /** Projector shortage and its positive part (helpers.py:65-66, 126-129). */
  ghost predicate ProjectorShortage(d: TimetableData, scheduled: Scheduled, excess: string -> int, overflow: string -> int) {
    forall k :: k in d.times ==>
      excess(k) == ProjectorSessionsAt(d, scheduled, k) - d.numRoomsProjector
      && PositivePart(overflow(k), excess(k))
  }

  /** A tutor teaches at most one session per timeslot (helpers.py:132-134). */
  ghost predicate OneSessionPerTutor(d: TimetableData, scheduled: Scheduled) {
    forall k, m :: k in d.times && m in d.teachers ==> Sum(Taught(d, m), SessionOverSubjects(scheduled, k, m)) <= 1
  }

  /** The binary clash indicators and their non-negative per-student total
      (helpers.py:61-63, 137-144). */
  ghost predicate ClashesLinked(d: TimetableData, assign: Assign, clash: (string, string) -> int, clashes: string -> int) {
    && (forall i, k :: i in d.students && k in d.times ==>
          0 <= clash(i, k) <= 1
          && 2 * clash(i, k) <= StudentSessionsAt(d, assign, i, k)
          && 20 * clash(i, k) >= 3 * StudentSessionsAt(d, assign, i, k) - 3)
    && (forall i :: i in d.students ==> clashes(i) >= 0 && clashes(i) == Sum(d.times, ClashOverTimes(clash, i)))
  }

  /** Sessions at non-preferred timeslots are counted; at preferred ones the count is 0
      (helpers.py:54, 147-152). */
  ghost predicate NonPreferredCounted(d: TimetableData, scheduled: Scheduled, nonPreferred: string -> int) {
    forall k :: k in d.times ==>
      nonPreferred(k) >= 0
      && nonPreferred(k) == (if k in d.nonPreferredTimes then SessionsAt(d, scheduled, k) else 0)
  }

  /** Class sizes: a running session has at least `minclasssize` students, every session
      index at most `maxclasssize` (helpers.py:157-162). */
  ghost predicate ClassSizes(d: TimetableData, assign: Assign, scheduled: Scheduled) {
    forall j, k, m :: IsSession(d, j, k, m) ==>
      Population(d, assign, j, k, m) >= d.minClassSize * scheduled(j, k, m)
      && Population(d, assign, j, k, m) <= d.maxClassSize
  }

  /** The whole stage-1 constraint system. */
  ghost predicate Feasible(d: TimetableData, v: Stage1Values) {
    && AssignBinary(d, v.assign)
    && ScheduledBinary(d, v.scheduled)
    && TutorDaysLinked(d, v.scheduled, v.tutorDay, v.tutorDays)
    && WithinAvailability(d, v.scheduled)
    && EveryStudentPlaced(d, v.assign)
    && AttendsOnlyScheduled(d, v.assign, v.scheduled)
    && RepeatsMet(d, v.scheduled)
    && RoomsSuffice(d, v.scheduled)
    && ProjectorShortage(d, v.scheduled, v.projectorExcess, v.projectorOverflow)
    && OneSessionPerTutor(d, v.scheduled)
    && ClashesLinked(d, v.assign, v.clash, v.clashes)
    && NonPreferredCounted(d, v.scheduled, v.nonPreferred)
    && ClassSizes(d, v.assign, v.scheduled)
  }

  /** The stage-1 objective (helpers.py:165-166). */
  function Objective(d: TimetableData, v: Stage1Values): int {
    100 * Sum(d.students, v.clashes)
    + Sum(d.times, v.nonPreferred)
    + 500 * Sum(d.teachers, v.tutorDays)
    + 5000 * Sum(d.times, v.projectorOverflow)
  }

  /** What the solver's `Optimal` status promises about the values it reports. */
  ghost predicate Optimal(d: TimetableData, v: Stage1Values) {
    Feasible(d, v) && forall w :: Feasible(d, w) ==> Objective(d, v) <= Objective(d, w)
  }
}
