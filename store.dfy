/** The database session the models and handlers change in place: one list per table, rows
    in id order. Every method changes its rows as the source does and ends in the state the
    matching function of the roster describes. */
module Store {
  import opened Seqs
  import opened Roster
  import opened Crud
  import opened Usernames
  import opened Entities
  import opened Handlers

  class Store {
    var students: seq<Student>
    var subjects: seq<Subject>
    var tutors: seq<Tutor>
    var timeslots: seq<Timeslot>
    var rooms: seq<Room>
    var classes: seq<Option<TimetabledClass>>
    var users: seq<User>

    /** The tables as one roster value. */
    function Snapshot(): Roster
      reads this
    {
      Roster(students, subjects, tutors, timeslots, rooms, classes, users)
    }

    constructor (r: Roster)
      ensures Snapshot() == r
    {
      students, subjects, tutors, timeslots := r.students, r.subjects, r.tutors, r.timeslots;
      rooms, classes, users := r.rooms, r.classes, r.users;
    }

    // -------------------------------------------------------------------------------------
    // The model methods of timetabler/models.py.

    /** `Student.addSubject` (models.py:299-302). */
    method StudentAddSubject(i: nat, s: nat)
      requires i < |students|
      modifies this
      ensures Snapshot() == Entities.StudentAddSubject(old(Snapshot()), i, s)
    {
      if s !in students[i].subjects {
        students := students[i := students[i].(subjects := students[i].subjects + [s])];
      }
    }

    /** `Tutor.addAvailableTime` (models.py:352-355). */
    method TutorAddAvailableTime(t: nat, ts: nat)
      requires t < |tutors|
      modifies this
      ensures Snapshot() == Entities.TutorAddAvailableTime(old(Snapshot()), t, ts)
    {
      if ts !in tutors[t].availableTimes {
        tutors := tutors[t := tutors[t].(availableTimes := tutors[t].availableTimes + [ts])];
      }
    }

    /** `Tutor.addSubject(subcode=code)` (models.py:357-361); `ok` is false where the source
        fails, and then nothing changes. */
    method TutorAddSubject(ctx: Context, t: nat, code: string) returns (ok: bool)
      modifies this
      ensures var r' := Entities.TutorAddSubject(old(Snapshot()), ctx, t, code);
        ok == r'.Some? && Snapshot() == if ok then r'.value else old(Snapshot())
    {
      var found := FindSubject(Snapshot(), ctx, code);
      if found.None? {
        return false;
      }
      var s := found.value;
      if s !in TutorSubjects(Snapshot(), t) {
        subjects := subjects[s := subjects[s].(tutor := Some(t))];
      }
      ok := true;
    }

    /** `linksubjectstudent` (models.py:655-661). */
    method LinkSubjectStudent(ctx: Context, studentcode: string, subcode: string) returns (ok: bool)
      modifies this
      ensures var r' := Entities.LinkSubjectStudent(old(Snapshot()), ctx, studentcode, subcode);
        ok == r'.Some? && Snapshot() == if ok then r'.value else old(Snapshot())
    {
      var student := FindStudent(Snapshot(), ctx, studentcode);
      var subject := FindSubject(Snapshot(), ctx, subcode);
      if student.None? || subject.None? {
        return false;
      }
      StudentAddSubject(student.value, subject.value);
      ok := true;
    }

    /** `unlinksubjectstudent` (models.py:469-474). */
    method UnlinkSubjectStudent(ctx: Context, studentcode: string, subcode: string) returns (ok: bool)
      modifies this
      ensures var r' := Entities.UnlinkSubjectStudent(old(Snapshot()), ctx, studentcode, subcode);
        ok == r'.Some? && Snapshot() == if ok then r'.value else old(Snapshot())
    {
      var student := FindStudent(Snapshot(), ctx, studentcode);
      var subject := FindSubject(Snapshot(), ctx, subcode);
      if student.None? || subject.None? || subject.value !in students[student.value].subjects {
        return false;
      }
      var i, s := student.value, subject.value;
      students := students[i := students[i].(subjects := RemoveFirst(students[i].subjects, s))];
      ok := true;
    }

    /** `Tutor.generate_user_for_tutor` with `create_user_with_tutor` (models.py:341-347,
        485-492). */
    method GenerateUserForTutor(ctx: Context, t: nat) returns (ok: bool)
      requires t < |tutors|
      modifies this
      ensures var r' := Entities.GenerateUserForTutor(old(Snapshot()), ctx, t);
        ok == r'.Some? && Snapshot() == if ok then r'.value else old(Snapshot())
    {
      var username := Username(tutors[t].name);
      if username.None? {
        return false;
      }
      if FindUser(Snapshot(), ctx, username.value).None? {
        var u := |users|;
        users := users + [NewUser(ctx, username.value)];
        tutors := tutors[t := tutors[t].(user := Some(u))];
      }
      ok := true;
    }

    /** `change_room_projector` (models.py:677-684) and `update_room_projector`
        (views.py:956-967). */
    method SetRoomProjector(n: nat, value: int) returns (ok: bool)
      modifies this
      ensures var r' := Entities.SetRoomProjector(old(Snapshot()), n, value);
        ok == r'.Some? && Snapshot() == if ok then r'.value else old(Snapshot())
    {
      if value == 1 {
        if n >= |rooms| {
          return false;
        }
        rooms := rooms[n := rooms[n].(projector := Some(true))];
      } else if value == 0 {
        if n >= |rooms| {
          return false;
        }
        rooms := rooms[n := rooms[n].(projector := Some(false))];
      }
      ok := true;
    }

    /** `change_preferred_timeslot` (models.py:958-964). */
    method SetPreferredTimeslot(ts: nat, preferred: int) returns (ok: bool)
      modifies this
      ensures var r' := Entities.SetPreferredTimeslot(old(Snapshot()), ts, preferred);
        ok == r'.Some? && Snapshot() == if ok then r'.value else old(Snapshot())
    {
      if ts >= |timeslots| {
        return false;
      }
      ok := true;
      if preferred == 1 {
        timeslots := timeslots[ts := timeslots[ts].(preferred := Some(true))];
      } else {
        timeslots := timeslots[ts := timeslots[ts].(preferred := Some(false))];
      }
    }

    // -------------------------------------------------------------------------------------
    // The request handlers of timetabler/views.py.

    /** `update_student_scheduled_class_ajax` (views.py:1062-1076): the loop over the
        subject's classes, then the append to the target class. */
    method MoveStudent(c: nat, i: nat) returns (ok: bool)
      modifies this
      ensures var r' := Handlers.MoveStudent(old(Snapshot()), c, i);
        ok == r'.Some? && Snapshot() == if ok then r'.value else old(Snapshot())
    {
      if c >= |classes| || classes[c].None? || i >= |students| {
        return false;
      }
      ok := true;
      var target := classes[c].value;
      if i in target.students {
        return;
      }
      if target.subject >= |subjects| {
        return false;
      }
      var ids := SubjectClasses(Snapshot(), target.subject);
      for q := 0 to |ids|
        invariant Snapshot() == old(Snapshot()).(classes := classes)
        invariant |classes| == |old(classes)|
        invariant forall p :: 0 <= p < |classes| ==>
          classes[p] == if p in ids[..q] then Unenrol(old(classes)[p], target.subject, i) else old(classes)[p]
      {
        var k := ids[q];
        assert k in ids;
        assert ids[..q + 1] == ids[..q] + [k];
        assert k !in ids[..q];
        if classes[k].Some? && i in classes[k].value.students {
          classes := classes[k := Some(classes[k].value.(students := RemoveFirst(classes[k].value.students, i)))];
        }
      }
      assert ids[..|ids|] == ids;
      forall p | 0 <= p < |classes| ensures classes[p] == Unenrol(old(classes)[p], target.subject, i) {
        var x: nat := p;
        if x !in ids {
          assert Unenrol(old(classes)[p], target.subject, i) == old(classes)[p];
        }
      }
      classes := classes[c := Some(target.(students := target.students + [i]))];
    }

    /** `update_tutor_availability_ajax` (views.py:1035-1047). */
    method ToggleAvailability(t: nat, ts: nat) returns (ok: bool)
      modifies this
      ensures var r' := Handlers.ToggleAvailability(old(Snapshot()), t, ts);
        ok == r'.Some? && Snapshot() == if ok then r'.value else old(Snapshot())
    {
      if t >= |tutors| || ts >= |timeslots| {
        return false;
      }
      ok := true;
      if ts in tutors[t].availableTimes {
        tutors := tutors[t := tutors[t].(availableTimes := RemoveFirst(tutors[t].availableTimes, ts))];
      } else {
        tutors := tutors[t := tutors[t].(availableTimes := tutors[t].availableTimes + [ts])];
      }
    }

    /** `user_admin_ajax` (views.py:1003-1018). */
    method SetAdmin(u: nat, value: int) returns (ok: bool)
      modifies this
      ensures var r' := Handlers.SetAdmin(old(Snapshot()), u, value);
        ok == r'.Some? && Snapshot() == if ok then r'.value else old(Snapshot())
    {
      if u >= |users| {
        return false;
      }
      ok := true;
      if users[u].isAdmin == "1" && users[u].username != "admin" {
        if value == 0 {
          users := users[u := users[u].(isAdmin := "0")];
        }
      } else if value == 1 {
        users := users[u := users[u].(isAdmin := "1")];
      }
    }

    /** `update_needsprojector` (views.py:931-942). */
    method SetNeedsProjector(s: nat, value: int) returns (ok: bool)
      modifies this
      ensures var r' := Handlers.SetNeedsProjector(old(Snapshot()), s, value);
        ok == r'.Some? && Snapshot() == if ok then r'.value else old(Snapshot())
    {
      if value == 1 {
        if s >= |subjects| {
          return false;
        }
        subjects := subjects[s := subjects[s].(needsProjector := Some(true))];
      } else if value == 0 {
        if s >= |subjects| {
          return false;
        }
        subjects := subjects[s := subjects[s].(needsProjector := Some(false))];
      }
      ok := true;
    }

    /** `change_preferred_time` (views.py:944-953). */
    method SetPreferredTime(ts: nat, value: int) returns (ok: bool)
      modifies this
      ensures var r' := Handlers.SetPreferredTime(old(Snapshot()), ts, value);
        ok == r'.Some? && Snapshot() == if ok then r'.value else old(Snapshot())
    {
      if value == 1 {
        if ts >= |timeslots| {
          return false;
        }
        timeslots := timeslots[ts := timeslots[ts].(preferred := Some(true))];
      } else if value == 0 {
        if ts >= |timeslots| {
          return false;
        }
        timeslots := timeslots[ts := timeslots[ts].(preferred := Some(false))];
      }
      ok := true;
    }

    /** The single-class rule: the subject's one class gets the subject's students. */
    method FillSingleClass(s: nat)
      modifies this
      ensures Snapshot() == Handlers.FillSingleClass(old(Snapshot()), s)
    {
      if |SubjectClasses(Snapshot(), s)| == 1 {
        var c := OnlyClass(Snapshot(), s);
        classes := classes[c := Some(classes[c].value.(students := SubjectStudents(Snapshot(), s)))];
      }
    }

    /** `add_timetabledclass_to_subject` (views.py:199-210); `ok` is false where the source
        fails, and then nothing changes. */
    method AddTimetabledClass(ctx: Context, code: string, ts: nat) returns (ok: bool)
      modifies this
      ensures var r' := Handlers.AddTimetabledClass(old(Snapshot()), ctx, code, ts);
        ok == r'.Some? && Snapshot() == if ok then r'.value else old(Snapshot())
    {
      var found := FindSubject(Snapshot(), ctx, code);
      if found.None? || ts >= |timeslots| || subjects[found.value].tutor.None? {
        return false;
      }
      var s := found.value;
      var tutor := subjects[s].tutor.value;
      var matches := SameClass(ctx, s, ts, tutor);
      var hit := FirstMatch(classes, matches);
      if hit.None? {
        classes := classes + [Some(NewClass(ctx, s, ts, tutor))];
      }
      FillSingleClass(s);
      ok := true;
    }

    /** `remove_timetabled_class` (views.py:355-367); `ok` is false where the source fails.
        Nothing changes when the class is missing; when its subject row is gone the class is
        deleted before the failure, as the source commits the deletion first. */
    method RemoveTimetabledClass(c: nat) returns (ok: bool)
      modifies this
      ensures var r' := Handlers.RemoveTimetabledClass(old(Snapshot()), c);
        ok == Handlers.RemoveCompletes(old(Snapshot()), c) && Snapshot() == if r'.Some? then r'.value else old(Snapshot())
    {
      if c >= |classes| || classes[c].None? {
        return false;
      }
      var s := classes[c].value.subject;
      classes := classes[c := None];
      if s >= |subjects| {
        return false;
      }
      ok := true;
      FillSingleClass(s);
    }
  }
}
