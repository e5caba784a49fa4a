/** What a stage-2 valuation satisfying the room-allocation constraints, or an optimal one,
    guarantees about the rooms of the sessions in `classpop`. */
module StageTwoGuarantees {
  import opened Seqs
  import opened Sums
  import opened Linearisation
  import opened TimetableData
  import opened StageOne
  import opened ClassPopulation
  import opened StageTwo

  /** Every session of classpop gets exactly one room (helpers.py:209-213). */
  lemma OneRoomPerClass(d: TimetableData, v: Stage1Values, w: Stage2Values, t: Session)
    requires RoomBinary(d, ClassPopulationOf(d, v), w.room)
    requires RoomPerSession(d, v.scheduled, ClassPopulationOf(d, v), w.room)
    requires t in ClassPopulationOf(d, v)
    ensures exists n :: n in d.rooms && w.room(t, n) == 1
    ensures forall n1, n2 :: n1 in d.rooms && n2 in d.rooms && w.room(t, n1) == 1 && w.room(t, n2) == 1 ==> n1 == n2
  {
    var classpop := ClassPopulationOf(d, v);
    assert IsSession(d, t.subject, t.time, t.tutor);
    assert Sum(d.rooms, RoomOverRooms(w.room, t)) == 1 by {
      assert t == Session(t.subject, t.time, t.tutor);
    }
    ExactlyOne(d.rooms, RoomOverRooms(w.room, t));
  }

  /** The summands of a room's occupancy are 0 or 1. */
  lemma OccupancyBinary(d: TimetableData, classpop: Classpop, room: RoomAssign, k: string, n: string, m: string)
    requires RoomBinary(d, classpop, room) && n in d.rooms
    ensures Binary(Taught(d, m), SubjectsInRoomAt(classpop, room, k, n, m))
    ensures Sum(Taught(d, m), SubjectsInRoomAt(classpop, room, k, n, m)) >= 0
  {
    SumNonNeg(Taught(d, m), SubjectsInRoomAt(classpop, room, k, n, m));
  }

  /** A room holds at most one class of classpop at any timeslot (helpers.py:224-226). */
  lemma RoomHoldsOneClass(d: TimetableData, classpop: Classpop, room: RoomAssign, n: string, t1: Session, t2: Session)
    requires RoomBinary(d, classpop, room) && RoomUnique(d, classpop, room)
    requires forall t :: t in classpop ==> IsSession(d, t.subject, t.time, t.tutor)
    requires n in d.rooms && t1 in classpop && t2 in classpop && t1.time == t2.time
    requires room(t1, n) == 1 && room(t2, n) == 1
    ensures t1 == t2
  {
    if t1 != t2 {
      TwoClassesOccupy(d, classpop, room, n, t1, t2);
      assert false;
    }
  }

  /** Two distinct sessions of classpop at one timeslot, both in room n, give the room an
      occupancy of at least two. */
  lemma TwoClassesOccupy(d: TimetableData, classpop: Classpop, room: RoomAssign, n: string, t1: Session, t2: Session)
    requires RoomBinary(d, classpop, room)
    requires n in d.rooms && t1 in classpop && t2 in classpop && t1 != t2 && t1.time == t2.time
    requires IsSession(d, t1.subject, t1.time, t1.tutor) && IsSession(d, t2.subject, t2.time, t2.tutor)
    requires room(t1, n) == 1 && room(t2, n) == 1
    ensures RoomOccupancy(d, classpop, room, t1.time, n) >= 2
  {
    var k := t1.time;
    var perTutor := TutorsInRoomAt(d, classpop, room, k, n);
    forall m | m in d.teachers ensures perTutor(m) >= 0 {
      OccupancyBinary(d, classpop, room, k, n, m);
    }
    if t1.tutor == t2.tutor {
      OccupancyBinary(d, classpop, room, k, n, t1.tutor);
      assert SubjectsInRoomAt(classpop, room, k, n, t1.tutor)(t1.subject) == 1 by {
        assert t1 == Session(t1.subject, k, t1.tutor);
      }
      assert SubjectsInRoomAt(classpop, room, k, n, t1.tutor)(t2.subject) == 1 by {
        assert t2 == Session(t2.subject, k, t1.tutor);
      }
      SumAtLeastTwo(Taught(d, t1.tutor), SubjectsInRoomAt(classpop, room, k, n, t1.tutor), t1.subject, t2.subject);
      SumAtLeast(d.teachers, perTutor, t1.tutor);
    } else {
      InOccupancy(d, classpop, room, k, n, t1);
      InOccupancy(d, classpop, room, k, n, t2);
      SumAtLeastTwo(d.teachers, perTutor, t1.tutor, t2.tutor);
    }
  }

  /** A session placed in room n counts in its tutor's share of the room's occupancy. */
  lemma InOccupancy(d: TimetableData, classpop: Classpop, room: RoomAssign, k: string, n: string, t: Session)
    requires RoomBinary(d, classpop, room) && n in d.rooms
    requires t in classpop && IsSession(d, t.subject, t.time, t.tutor) && t.time == k && room(t, n) == 1
    ensures TutorsInRoomAt(d, classpop, room, k, n)(t.tutor) >= 1
  {
    OccupancyBinary(d, classpop, room, k, n, t.tutor);
    assert SubjectsInRoomAt(classpop, room, k, n, t.tutor)(t.subject) == 1 by {
      assert t == Session(t.subject, k, t.tutor);
    }
    SumAtLeast(Taught(d, t.tutor), SubjectsInRoomAt(classpop, room, k, n, t.tutor), t.subject);
  }

  /** The number of sessions a tutor has in a room is non-negative. */
  lemma TutorRoomUsesNonNeg(d: TimetableData, classpop: Classpop, room: RoomAssign, m: string, n: string)
    requires RoomBinary(d, classpop, room) && n in d.rooms
    ensures TutorRoomUses(d, classpop, room, m, n) >= 0
  {
    forall j | j in Taught(d, m) ensures SubjectInRoom(d, classpop, room, m, n)(j) >= 0 {
      SumNonNeg(d.times, SessionInRoomOverTimes(classpop, room, j, m, n));
    }
    SumNonNeg(Taught(d, m), SubjectInRoom(d, classpop, room, m, n));
  }

  /** The tutor-room indicator is exactly "the tutor teaches in that room", a tutor has at
      most 100 sessions in one room, and NumberRoomsTeacherSum counts the rooms a tutor uses
      (helpers.py:198-205). */
  lemma TutorRoomMeaning(d: TimetableData, classpop: Classpop, w: Stage2Values, m: string)
    requires RoomBinary(d, classpop, w.room) && TutorRoomsLinked(d, classpop, w.room, w.tutorRoom, w.tutorRooms)
    requires m in d.teachers
    ensures forall n :: n in d.rooms ==>
      TutorRoomUses(d, classpop, w.room, m, n) <= 100
      && w.tutorRoom(m, n) == (if TutorRoomUses(d, classpop, w.room, m, n) >= 1 then 1 else 0)
    ensures w.tutorRooms(m) == |Ones(d.rooms, TutorRoomOverRooms(w.tutorRoom, m))|
  {
    forall n | n in d.rooms
      ensures TutorRoomUses(d, classpop, w.room, m, n) <= 100
      ensures w.tutorRoom(m, n) == (if TutorRoomUses(d, classpop, w.room, m, n) >= 1 then 1 else 0)
    {
      TutorRoomUsesNonNeg(d, classpop, w.room, m, n);
      UsageIndicatorMeaning(w.tutorRoom(m, n), TutorRoomUses(d, classpop, w.room, m, n), 100);
    }
    SumOfBinary(d.rooms, TutorRoomOverRooms(w.tutorRoom, m));
  }

  /** At an optimum the positive part of every room's overshoot is exactly
      `max(0, load - CAPACITIES[n])` (helpers.py:231-245). */
  lemma CapacityOverflowAtOptimum(d: TimetableData, scheduled: Scheduled, classpop: Classpop, w: Stage2Values, k: string, n: string)
    requires Optimal2(d, scheduled, classpop, w) && k in d.times && n in d.rooms
    ensures w.overflow(k, n) == Max0(RoomLoad(d, classpop, w.room, k, n) - Capacity(d, n))
  {
    var best := Max0(w.overshoot(k, n));
    if w.overflow(k, n) != best {
      LoweredFeasible(d, scheduled, classpop, w, k, n);
      LoweredCheaper(d, w, k, n, best);
      assert false;
    }
  }

  /** The positive parts with the one at (k, n) replaced by `v`. */
  function Lowered(overflow: (string, string) -> int, k: string, n: string, v: int): (string, string) -> int {
    (k', n') => if k' == k && n' == n then v else overflow(k', n')
  }

  /** Lowering the positive part at (k, n) to `max(0, overshoot)` keeps the constraints. */
  lemma LoweredFeasible(d: TimetableData, scheduled: Scheduled, classpop: Classpop, w: Stage2Values, k: string, n: string)
    requires Feasible2(d, scheduled, classpop, w) && k in d.times && n in d.rooms
    ensures Feasible2(d, scheduled, classpop, w.(overflow := Lowered(w.overflow, k, n, Max0(w.overshoot(k, n)))))
  {
    var w' := w.(overflow := Lowered(w.overflow, k, n, Max0(w.overshoot(k, n))));
    assert CapacityOvershoot(d, classpop, w'.room, w'.overshoot, w'.overflow);
  }

  /** Lowering one positive part strictly lowers the objective. */
  lemma LoweredCheaper(d: TimetableData, w: Stage2Values, k: string, n: string, v: int)
    requires k in d.times && n in d.rooms && v < w.overflow(k, n)
    ensures Objective2(d, w.(overflow := Lowered(w.overflow, k, n, v))) < Objective2(d, w)
  {
    var lowered := Lowered(w.overflow, k, n, v);
    forall k' | k' in d.times ensures OverflowAt(d, lowered)(k') <= OverflowAt(d, w.overflow)(k') {
      SumLessEq(d.rooms, OverflowOverRooms(lowered, k'), OverflowOverRooms(w.overflow, k'));
    }
    SumStrictlyLess(d.rooms, OverflowOverRooms(lowered, k), OverflowOverRooms(w.overflow, k), n);
    SumStrictlyLess(d.times, OverflowAt(d, lowered), OverflowAt(d, w.overflow), k);
  }

  /** A subject needing a projector that no tutor of TEACHERS teaches leaves its
      ProjectorRooms variable unconstrained; with its negative objective weight the
      programme then has no optimum, and the solver reports it unbounded (helpers.py:191, 217-220, 245). */
  lemma UntaughtProjectorSubjectUnbounded(d: TimetableData, scheduled: Scheduled, classpop: Classpop, w: Stage2Values, j: string)
    requires Feasible2(d, scheduled, classpop, w)
    requires j in d.projectors && forall m :: m in d.teachers ==> j !in Taught(d, m)
    ensures !Optimal2(d, scheduled, classpop, w)
  {
    var raised := j' => if j' == j then w.projectorRooms(j') + 1 else w.projectorRooms(j');
    var w' := w.(projectorRooms := raised);
    assert ProjectorRoomsCounted(d, classpop, w'.room, w'.projectorRooms);
    assert Feasible2(d, scheduled, classpop, w');
    SumStrictlyLess(d.projectors, w.projectorRooms, w'.projectorRooms, j);
    assert Objective2(d, w') < Objective2(d, w);
  }
}
