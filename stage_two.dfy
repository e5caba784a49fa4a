/** Stage 2 of `runtimetable_with_rooms_two_step` (timetabler/helpers.py:179-245): the room
    allocation programme, built over the sessions in `classpop` only.

    As for stage 1, the constraint system is a predicate over an integer valuation and the
    objective a function; the continuous variables of this stage (NumberRoomsTeacherSum,
    ProjectorRooms, PopulationOvershoot, PopulationPositivePart) take integer values here. */
module StageTwo {
  import opened Seqs
  import opened Sums
  import opened Linearisation
  import opened TimetableData
  import opened StageOne
  import opened ClassPopulation

  type Classpop = map<Session, int>
  type RoomAssign = (Session, string) -> int

  datatype Stage2Values = Stage2Values(
    room: RoomAssign,                    // SubjectVariablesRooms[(j, k, m, n)]
    tutorRoom: (string, string) -> int,  // NumberRoomsTeacher[(m, n)]
    tutorRooms: string -> int,           // NumberRoomsTeacherSum[m]
    projectorRooms: string -> int,       // ProjectorRooms[j]
    overshoot: (string, string) -> int,  // PopulationOvershoot[(k, n)]
    overflow: (string, string) -> int)   // PopulationPositivePart[(k, n)]

  // ---------------------------------------------------------------------------------------
  // Linear expressions. A room variable only exists for a key of `classpop`; the source's
  // `if (j, k, m) in classpop.keys()` filters become a zero summand.

  /** n -> room[(t, n)] */
  function RoomOverRooms(room: RoomAssign, t: Session): string -> int {
    n => room(t, n)
  }

  /** k -> room[((j, k, m), n)] for the keys of classpop */
  function SessionInRoomOverTimes(classpop: Classpop, room: RoomAssign, j: string, m: string, n: string): string -> int {
    k => if Session(j, k, m) in classpop then room(Session(j, k, m), n) else 0
  }

  /** j -> sessions of (j, m) placed in room n */
  function SubjectInRoom(d: TimetableData, classpop: Classpop, room: RoomAssign, m: string, n: string): string -> int {
    j => Sum(d.times, SessionInRoomOverTimes(classpop, room, j, m, n))
  }

  /** Sessions tutor m has in room n (helpers.py:200-203). */
  function TutorRoomUses(d: TimetableData, classpop: Classpop, room: RoomAssign, m: string, n: string): int {
    Sum(Taught(d, m), SubjectInRoom(d, classpop, room, m, n))
  }

  /** n -> NumberRoomsTeacher[(m, n)] */
  function TutorRoomOverRooms(tutorRoom: (string, string) -> int, m: string): string -> int {
    n => tutorRoom(m, n)
  }

  /** n -> sessions of (j, m) in room n */
  function SubjectSessionsInRoom(d: TimetableData, classpop: Classpop, room: RoomAssign, j: string, m: string): string -> int {
    n => Sum(d.times, SessionInRoomOverTimes(classpop, room, j, m, n))
  }

  /** Sessions of (j, m) placed in a projector room (helpers.py:217-220). */
  function ProjectorRoomUses(d: TimetableData, classpop: Classpop, room: RoomAssign, j: string, m: string): int {
    Sum(d.projectorRooms, SubjectSessionsInRoom(d, classpop, room, j, m))
  }

  /** j -> room[((j, k, m), n)] for the keys of classpop */
  function SubjectsInRoomAt(classpop: Classpop, room: RoomAssign, k: string, n: string, m: string): string -> int {
    j => if Session(j, k, m) in classpop then room(Session(j, k, m), n) else 0
  }

  function TutorsInRoomAt(d: TimetableData, classpop: Classpop, room: RoomAssign, k: string, n: string): string -> int {
    m => Sum(Taught(d, m), SubjectsInRoomAt(classpop, room, k, n, m))
  }

  /** Classes placed in room n at timeslot k (helpers.py:224-226). */
  function RoomOccupancy(d: TimetableData, classpop: Classpop, room: RoomAssign, k: string, n: string): int {
    Sum(d.teachers, TutorsInRoomAt(d, classpop, room, k, n))
  }

  /** j -> classpop[(j, k, m)] * room[((j, k, m), n)] for the keys of classpop */
  function StudentsInRoomAt(classpop: Classpop, room: RoomAssign, k: string, n: string, m: string): string -> int {
    j => if Session(j, k, m) in classpop then classpop[Session(j, k, m)] * room(Session(j, k, m), n) else 0
  }

  function TutorStudentsInRoomAt(d: TimetableData, classpop: Classpop, room: RoomAssign, k: string, n: string): string -> int {
    m => Sum(Taught(d, m), StudentsInRoomAt(classpop, room, k, n, m))
  }

  /** Students placed in room n at timeslot k (helpers.py:237). */
  function RoomLoad(d: TimetableData, classpop: Classpop, room: RoomAssign, k: string, n: string): int {
    Sum(d.teachers, TutorStudentsInRoomAt(d, classpop, room, k, n))
  }

  /** n -> PopulationPositivePart[(k, n)] */
  function OverflowOverRooms(overflow: (string, string) -> int, k: string): string -> int {
    n => overflow(k, n)
  }

  /** k -> the positive parts of every room at k */
  function OverflowAt(d: TimetableData, overflow: (string, string) -> int): string -> int {
    k => Sum(d.rooms, OverflowOverRooms(overflow, k))
  }

  // ---------------------------------------------------------------------------------------
  // The constraint system.

  /** SubjectVariablesRooms is binary over the keys of classpop and the rooms (helpers.py:183-185). */
  ghost predicate RoomBinary(d: TimetableData, classpop: Classpop, room: RoomAssign) {
    forall t, n :: t in classpop && n in d.rooms ==> 0 <= room(t, n) <= 1
  }

  /** The binary tutor-room indicator squeezed between a hundredth of the tutor's sessions in
      the room and that number, and the non-negative per-tutor total (helpers.py:187-189,
      198-205). */
  ghost predicate TutorRoomsLinked(d: TimetableData, classpop: Classpop, room: RoomAssign, tutorRoom: (string, string) -> int, tutorRooms: string -> int) {
    && (forall m, n :: m in d.teachers && n in d.rooms ==>
          0 <= tutorRoom(m, n) <= 1
          && 100 * tutorRoom(m, n) >= TutorRoomUses(d, classpop, room, m, n)
          && tutorRoom(m, n) <= TutorRoomUses(d, classpop, room, m, n))
    && (forall m :: m in d.teachers ==>
          tutorRooms(m) >= 0 && tutorRooms(m) == Sum(d.rooms, TutorRoomOverRooms(tutorRoom, m)))
  }

  /** A session of classpop gets as many rooms as its stage-1 value, which is 1
      (helpers.py:209-213). */
  ghost predicate RoomPerSession(d: TimetableData, scheduled: Scheduled, classpop: Classpop, room: RoomAssign) {
    forall j, k, m :: IsSession(d, j, k, m) && Session(j, k, m) in classpop ==>
      Sum(d.rooms, RoomOverRooms(room, Session(j, k, m))) == scheduled(j, k, m)
  }

  /** ProjectorRooms[j] counts the sessions of j in projector rooms, once per tutor of j
      (helpers.py:217-220). */
  ghost predicate ProjectorRoomsCounted(d: TimetableData, classpop: Classpop, room: RoomAssign, projectorRooms: string -> int) {
    forall m, j :: m in d.teachers && j in Taught(d, m) && j in d.projectors ==>
      projectorRooms(j) == ProjectorRoomUses(d, classpop, room, j, m)
  }

  /** At most one class in a room at a timeslot (helpers.py:224-226). */
  ghost predicate RoomUnique(d: TimetableData, classpop: Classpop, room: RoomAssign) {
    forall k, n :: k in d.times && n in d.rooms ==> RoomOccupancy(d, classpop, room, k, n) <= 1
  }

  /** The load of a room above its capacity and the positive part of it (helpers.py:231-240). */
  ghost predicate CapacityOvershoot(d: TimetableData, classpop: Classpop, room: RoomAssign, overshoot: (string, string) -> int, overflow: (string, string) -> int) {
    forall k, n :: k in d.times && n in d.rooms ==>
      overshoot(k, n) == RoomLoad(d, classpop, room, k, n) - Capacity(d, n)
      && PositivePart(overflow(k, n), overshoot(k, n))
  }

  /** The whole stage-2 constraint system, given the stage-1 session values and classpop. */
  ghost predicate Feasible2(d: TimetableData, scheduled: Scheduled, classpop: Classpop, w: Stage2Values) {
    && RoomBinary(d, classpop, w.room)
    && TutorRoomsLinked(d, classpop, w.room, w.tutorRoom, w.tutorRooms)
    && RoomPerSession(d, scheduled, classpop, w.room)
    && ProjectorRoomsCounted(d, classpop, w.room, w.projectorRooms)
    && RoomUnique(d, classpop, w.room)
    && CapacityOvershoot(d, classpop, w.room, w.overshoot, w.overflow)
  }

  /** The stage-2 objective (helpers.py:245). */
  function Objective2(d: TimetableData, w: Stage2Values): int {
    Sum(d.teachers, w.tutorRooms)
    - 50 * Sum(d.projectors, w.projectorRooms)
    + 10 * Sum(d.times, OverflowAt(d, w.overflow))
  }

  /** What the solver's `Optimal` status promises about the stage-2 values it reports. */
  ghost predicate Optimal2(d: TimetableData, scheduled: Scheduled, classpop: Classpop, w: Stage2Values) {
    Feasible2(d, scheduled, classpop, w)
    && forall w' :: Feasible2(d, scheduled, classpop, w') ==> Objective2(d, w) <= Objective2(d, w')
  }
}
