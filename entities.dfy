/** The entity operations of timetabler/models.py: the add-if-absent links, the free-timeslot
    queries, a tutor's hours and available times, the tutor's login, the flag setters and the
    weekday number of a new timeslot. Each is a function of the roster it reads, or gives the
    roster it leaves behind; the `Store` class applies them in place. Where the source raises
    (a `get` that finds nothing, `list.remove` of an absent item) the result is `None`. */
module Entities {
  import opened Seqs
  import opened Sums
  import opened Roster
  import opened Crud
  import opened Usernames
  import Aggregator

  // ---------------------------------------------------------------------------------------
  // `get` by the keyword the source passes, within the current year and study period.

  /** `Student.get(studentcode=code)` */
  function FindStudent(r: Roster, ctx: Context, code: string): Option<nat> {
    FirstMatch(r.students, (st: Student) => st.year == ctx.year && st.studyperiod == ctx.studyperiod && st.code == code)
  }

  /** `Subject.get(subcode=code)` */
  function FindSubject(r: Roster, ctx: Context, code: string): Option<nat> {
    FirstMatch(r.subjects, (sb: Subject) => sb.year == ctx.year && sb.studyperiod == ctx.studyperiod && sb.subcode == code)
  }

  /** `User.query.filter_by(username=..., year=..., studyperiod=...).first()` */
  function FindUser(r: Roster, ctx: Context, username: string): Option<nat> {
    FirstMatch(r.users, (u: User) => u.year == ctx.year && u.studyperiod == ctx.studyperiod && u.username == username)
  }

  // ---------------------------------------------------------------------------------------
  // Add-if-absent links.

  /** `Student.addSubject` (models.py:299-302): the student is enrolled in the subject
      afterwards, no enrolment is duplicated, and no other row changes. */
  function StudentAddSubject(r: Roster, i: nat, s: nat): (r': Roster)
    requires i < |r.students|
    ensures |r'.students| == |r.students| && s in r'.students[i].subjects
    ensures Elems(r'.students[i].subjects) == Elems(r.students[i].subjects) + {s}
    ensures NoDup(r.students[i].subjects) ==> NoDup(r'.students[i].subjects)
    ensures s in r.students[i].subjects ==> r' == r
    ensures r'.students[i] == r.students[i].(subjects := r'.students[i].subjects)
    ensures r' == r.(students := r'.students)
    ensures forall j :: 0 <= j < |r.students| && j != i ==> r'.students[j] == r.students[j]
  {
    r.(students := r.students[i := r.students[i].(subjects := AddIfAbsent(r.students[i].subjects, s))])
  }

  /** After `addSubject`, the student is among the subject's students. */
  lemma StudentAddSubjectEnrols(r: Roster, i: nat, s: nat)
    requires i < |r.students|
    ensures i in SubjectStudents(StudentAddSubject(r, i, s), s)
  {
    var r' := StudentAddSubject(r, i, s);
    assert i < |r'.students| && s in r'.students[i].subjects;
  }

  /** `Tutor.addAvailableTime` (models.py:352-355): the timeslot is available afterwards, no
      timeslot is listed twice, and no other row changes. */
  function TutorAddAvailableTime(r: Roster, t: nat, ts: nat): (r': Roster)
    requires t < |r.tutors|
    ensures |r'.tutors| == |r.tutors| && ts in r'.tutors[t].availableTimes
    ensures Elems(r'.tutors[t].availableTimes) == Elems(r.tutors[t].availableTimes) + {ts}
    ensures NoDup(r.tutors[t].availableTimes) ==> NoDup(r'.tutors[t].availableTimes)
    ensures ts in r.tutors[t].availableTimes ==> r' == r
    ensures r'.tutors[t] == r.tutors[t].(availableTimes := r'.tutors[t].availableTimes)
    ensures r' == r.(tutors := r'.tutors)
    ensures forall u :: 0 <= u < |r.tutors| && u != t ==> r'.tutors[u] == r.tutors[u]
  {
    r.(tutors := r.tutors[t := r.tutors[t].(availableTimes := AddIfAbsent(r.tutors[t].availableTimes, ts))])
  }

  /** `Tutor.addSubject(subcode=code)` (models.py:357-361). `None` when no subject has the
      code: the source then appends `None` to the relationship, which fails. Otherwise the
      subject is the tutor's afterwards, and only that subject's row may change. */
  function TutorAddSubject(r: Roster, ctx: Context, t: nat, code: string): (r': Option<Roster>)
    ensures r'.Some? <==> FindSubject(r, ctx, code).Some?
    ensures r'.Some? ==> FindSubject(r, ctx, code).value in TutorSubjects(r'.value, t)
    ensures r'.Some? ==> |r'.value.subjects| == |r.subjects| && r'.value == r.(subjects := r'.value.subjects)
    ensures r'.Some? ==> forall s :: 0 <= s < |r.subjects| && s != FindSubject(r, ctx, code).value ==>
      r'.value.subjects[s] == r.subjects[s]
  {
    match FindSubject(r, ctx, code)
    case None => None
    case Some(s) =>
      if s in TutorSubjects(r, t) then Some(r)
      else
        var r1 := r.(subjects := r.subjects[s := r.subjects[s].(tutor := Some(t))]);
        assert s < |r1.subjects| && r1.subjects[s].tutor == Some(t);
        Some(r1)
  }

  /** `linksubjectstudent` (models.py:655-661): the student with the code is enrolled in the
      subject with the code. `None` when either is missing (the source fails on `None`). */
  function LinkSubjectStudent(r: Roster, ctx: Context, studentcode: string, subcode: string): (r': Option<Roster>)
    ensures r'.Some? <==> FindStudent(r, ctx, studentcode).Some? && FindSubject(r, ctx, subcode).Some?
    ensures r'.Some? ==> (|r'.value.students| == |r.students| &&
      FindSubject(r, ctx, subcode).value in r'.value.students[FindStudent(r, ctx, studentcode).value].subjects)
    ensures r'.Some? ==> r'.value == StudentAddSubject(r, FindStudent(r, ctx, studentcode).value, FindSubject(r, ctx, subcode).value)
  {
    match (FindStudent(r, ctx, studentcode), FindSubject(r, ctx, subcode))
    case (Some(i), Some(s)) => Some(StudentAddSubject(r, i, s))
    case _ => None
  }

  /** `unlinksubjectstudent` (models.py:469-474): the first enrolment of the student in the
      subject is removed. `None` when the student or subject is missing or the student is
      not enrolled: `list.remove` raises ValueError. */
  function UnlinkSubjectStudent(r: Roster, ctx: Context, studentcode: string, subcode: string): (r': Option<Roster>)
    ensures r'.Some? <==> (FindStudent(r, ctx, studentcode).Some? && FindSubject(r, ctx, subcode).Some?
      && FindSubject(r, ctx, subcode).value in r.students[FindStudent(r, ctx, studentcode).value].subjects)
    ensures r'.Some? ==>
      var i := FindStudent(r, ctx, studentcode).value;
      |r'.value.students| == |r.students| && |r'.value.students[i].subjects| == |r.students[i].subjects| - 1
      && (NoDup(r.students[i].subjects) ==> FindSubject(r, ctx, subcode).value !in r'.value.students[i].subjects)
    ensures r'.Some? ==>
      var i := FindStudent(r, ctx, studentcode).value;
      r'.value == r.(students := r.students[i := r.students[i].(subjects := RemoveFirst(r.students[i].subjects, FindSubject(r, ctx, subcode).value))])
  {
    match (FindStudent(r, ctx, studentcode), FindSubject(r, ctx, subcode))
    case (Some(i), Some(s)) =>
      if s in r.students[i].subjects then
        Some(r.(students := r.students[i := r.students[i].(subjects := RemoveFirst(r.students[i].subjects, s))]))
      else None
    case _ => None
  }

  /** Linking a student to a subject they were not in, then unlinking, restores the roster. */
  lemma LinkThenUnlink(r: Roster, ctx: Context, studentcode: string, subcode: string)
    requires FindStudent(r, ctx, studentcode).Some? && FindSubject(r, ctx, subcode).Some?
    requires FindSubject(r, ctx, subcode).value !in r.students[FindStudent(r, ctx, studentcode).value].subjects
    ensures LinkSubjectStudent(r, ctx, studentcode, subcode).Some?
    ensures UnlinkSubjectStudent(LinkSubjectStudent(r, ctx, studentcode, subcode).value, ctx, studentcode, subcode) == Some(r)
  {
    var i := FindStudent(r, ctx, studentcode).value;
    var s := FindSubject(r, ctx, subcode).value;
    var r1 := LinkSubjectStudent(r, ctx, studentcode, subcode).value;
    assert r1.students == r.students[i := r.students[i].(subjects := r.students[i].subjects + [s])];
    assert FindStudent(r1, ctx, studentcode) == Some(i) by {
      FirstMatchSameKeys(r.students, r1.students, i, (st: Student) => st.year == ctx.year && st.studyperiod == ctx.studyperiod && st.code == studentcode);
    }
    RemoveFirstAppended(r.students[i].subjects, s);
    assert r1.students[i].subjects == r.students[i].subjects + [s];
    assert UnlinkSubjectStudent(r1, ctx, studentcode, subcode) ==
      Some(r1.(students := r1.students[i := r1.students[i].(subjects := r.students[i].subjects)]));
    assert r1.students[i := r1.students[i].(subjects := r.students[i].subjects)] == r.students;
  }

  /** Changing one row in a way the filter cannot see leaves the first match in place. */
  lemma {:induction false} FirstMatchSameKeys<R>(rows: seq<R>, rows': seq<R>, k: nat, matches: R -> bool)
    requires |rows'| == |rows| && k < |rows| && matches(rows'[k]) == matches(rows[k])
    requires forall p :: 0 <= p < |rows| && p != k ==> rows'[p] == rows[p]
    ensures FirstMatch(rows', matches) == FirstMatch(rows, matches)
  {
    if rows != [] {
      if k > 0 {
        FirstMatchSameKeys(rows[1..], rows'[1..], k - 1, matches);
      } else {
        assert rows'[1..] == rows[1..];
      }
    }
  }

  // ---------------------------------------------------------------------------------------
  // Free-timeslot queries.

  /** The timeslots of the live classes among `cs`. */
  function ClassTimes(r: Roster, cs: seq<nat>): set<nat> {
    set c | c in cs && c < |r.classes| && r.classes[c].Some? :: r.classes[c].value.time
  }

  /** The timeslots at which one of `students` has a class. */
  function BusyTimes(r: Roster, students: seq<nat>): set<nat> {
    if students == [] then {}
    else BusyTimes(r, students[..|students| - 1]) + ClassTimes(r, StudentClasses(r, students[|students| - 1]))
  }

  /** Some student enrolled in subject `s` has a class at timeslot `ts`. */
  ghost predicate StudentsEngaged(r: Roster, s: nat, ts: nat) {
    exists i: nat :: i < |r.students| && s in r.students[i].subjects && HasClassAt(r, i, ts)
  }

  /** `Subject.find_possible_times` (models.py:258-272): the current timeslots, in order, less
      every timeslot at which an enrolled student already has a class. */
  method FindPossibleTimes(r: Roster, ctx: Context, s: nat) returns (times: seq<nat>)
    ensures times == Without(CurrentTimeslots(r, ctx), BusyTimes(r, SubjectStudents(r, s)))
  {
    var all := CurrentTimeslots(r, ctx);
    var enrolled := SubjectStudents(r, s);
    times := all;
    WithoutNothing(all);
    for p := 0 to |enrolled|
      invariant times == Without(all, BusyTimes(r, enrolled[..p]))
    {
      times := RemoveClassTimes(r, all, BusyTimes(r, enrolled[..p]), times, StudentClasses(r, enrolled[p]));
      assert enrolled[..p + 1][..p] == enrolled[..p];
    }
    assert enrolled[..|enrolled|] == enrolled;
  }

  /** The inner loop of `find_possible_times`: remove the timeslot of each class in turn. */
  method RemoveClassTimes(r: Roster, ghost all: seq<nat>, ghost gone: set<nat>, times: seq<nat>, cs: seq<nat>)
    returns (times': seq<nat>)
    requires NoDup(all) && times == Without(all, gone)
    ensures times' == Without(all, gone + ClassTimes(r, cs))
  {
    times' := times;
    assert gone + ClassTimes(r, cs[..0]) == gone;
    for q := 0 to |cs|
      invariant times' == Without(all, gone + ClassTimes(r, cs[..q]))
    {
      var c := cs[q];
      ghost var before := gone + ClassTimes(r, cs[..q]);
      if c < |r.classes| && r.classes[c].Some? {
        var ts := r.classes[c].value.time;
        assert gone + ClassTimes(r, cs[..q + 1]) == before + {ts};
        if ts in times' {
          RemoveFirstWithout(all, before, ts);
          times' := RemoveFirst(times', ts);
        } else {
          WithoutAgain(all, before, ts);
        }
      } else {
        assert ClassTimes(r, cs[..q + 1]) == ClassTimes(r, cs[..q]);
      }
    }
    assert cs[..|cs|] == cs;
  }

  lemma {:induction false} WithoutNothing<T>(s: seq<T>)
    ensures Without(s, {}) == s
  {
    if s != [] {
      WithoutNothing(s[1..]);
    }
  }

  /** Removing again what a filtered list already lacks changes nothing. */
  lemma WithoutAgain<T>(s: seq<T>, gone: set<T>, x: T)
    requires x !in Without(s, gone)
    ensures Without(s, gone + {x}) == Without(s, gone)
  {
    if x in gone {
      assert gone + {x} == gone;
    } else {
      WithoutAbsent(s, gone, x);
    }
  }

  /** Student `i` has a class at timeslot `ts`. */
  ghost predicate HasClassAt(r: Roster, i: nat, ts: nat) {
    exists c :: 0 <= c < |r.classes| && r.classes[c].Some? && i in r.classes[c].value.students && r.classes[c].value.time == ts
  }

  /** The timeslots of a student's classes are the timeslots at which they have a class. */
  lemma StudentClassTimes(r: Roster, i: nat, ts: nat)
    ensures ts in ClassTimes(r, StudentClasses(r, i)) <==> HasClassAt(r, i, ts)
  {
    if HasClassAt(r, i, ts) {
      var c :| 0 <= c < |r.classes| && r.classes[c].Some? && i in r.classes[c].value.students && r.classes[c].value.time == ts;
      assert (c as nat) in StudentClasses(r, i);
    }
  }

  /** A timeslot is busy for a list of students iff one of them has a class there. */
  lemma {:induction false} BusyTimesMeaning(r: Roster, students: seq<nat>, ts: nat)
    ensures ts in BusyTimes(r, students) <==> exists i :: i in students && HasClassAt(r, i, ts)
  {
    if students != [] {
      var n := |students| - 1;
      var last := students[n];
      BusyTimesMeaning(r, students[..n], ts);
      StudentClassTimes(r, last, ts);
      assert forall i :: i in students <==> i in students[..n] || i == last by {
        assert students == students[..n] + [last];
      }
    }
  }

  /** The timeslots `find_possible_times` offers are exactly the current timeslots at which no
      enrolled student has a class. */
  lemma PossibleTimesMeaning(r: Roster, ctx: Context, s: nat, ts: nat)
    ensures ts in Without(CurrentTimeslots(r, ctx), BusyTimes(r, SubjectStudents(r, s))) <==>
      ts in CurrentTimeslots(r, ctx) && !StudentsEngaged(r, s, ts)
  {
    var enrolled := SubjectStudents(r, s);
    BusyTimesMeaning(r, enrolled, ts);
    if StudentsEngaged(r, s, ts) {
      var i: nat :| i < |r.students| && s in r.students[i].subjects && HasClassAt(r, i, ts);
      assert i in enrolled;
    }
    if ts in BusyTimes(r, enrolled) {
      var i :| i in enrolled && HasClassAt(r, i, ts);
      assert i < |r.students| && s in r.students[i].subjects;
    }
  }

  /** `Room.get_available_times` (models.py:418-423): the current timeslots, in order, at which
      the room holds no class. */
  function RoomAvailableTimes(r: Roster, ctx: Context, n: nat): (times: seq<nat>)
    ensures NoDup(times)
    ensures forall ts :: ts in times <==> (ts in CurrentTimeslots(r, ctx) &&
      forall c :: 0 <= c < |r.classes| && r.classes[c].Some? && r.classes[c].value.room == Some(n) ==> r.classes[c].value.time != ts)
  {
    var busy := ClassTimes(r, RoomClasses(r, n));
    assert forall c :: 0 <= c < |r.classes| && r.classes[c].Some? && r.classes[c].value.room == Some(n) ==>
      (c as nat) in RoomClasses(r, n) && r.classes[c].value.time in busy;
    Without(CurrentTimeslots(r, ctx), busy)
  }

  // ---------------------------------------------------------------------------------------
  // A tutor's hours and available times.

  /** What `num_hours` adds up: the repeats of the tutor's subjects. */
  function Hours(r: Roster, t: nat): int {
    Sum(TutorSubjects(r, t), Aggregator.RepeatsOf(r))
  }

  /** `Tutor.num_hours` (models.py:363-367), with its accumulating loop. */
  method NumHours(r: Roster, t: nat) returns (total: int)
    ensures total == Hours(r, t)
  {
    var subjects := TutorSubjects(r, t);
    total := 0;
    for p := 0 to |subjects|
      invariant total == Sum(subjects[..p], Aggregator.RepeatsOf(r))
    {
      assert subjects[p] in subjects;
      SumSnoc(subjects[..p], Aggregator.RepeatsOf(r), subjects[p]);
      assert subjects[..p + 1] == subjects[..p] + [subjects[p]];
      total := total + r.subjects[subjects[p]].repeats;
    }
    assert subjects[..|subjects|] == subjects;
  }

  /** Giving a tutor a subject they did not have adds its repeats to their hours. */
  lemma HoursAfterAddSubject(r: Roster, ctx: Context, t: nat, code: string)
    requires TutorAddSubject(r, ctx, t, code).Some?
    ensures var s := FindSubject(r, ctx, code).value;
      Hours(TutorAddSubject(r, ctx, t, code).value, t) ==
        Hours(r, t) + (if s in TutorSubjects(r, t) then 0 else r.subjects[s].repeats)
  {
    var s := FindSubject(r, ctx, code).value;
    var r' := TutorAddSubject(r, ctx, t, code).value;
    if s !in TutorSubjects(r, t) {
      var keep := (x: nat) => x < |r.subjects| && r.subjects[x].tutor == Some(t);
      var keep' := (x: nat) => x < |r'.subjects| && r'.subjects[x].tutor == Some(t);
      assert !keep(s) && keep'(s);
      IdsWhereGains(|r.subjects|, keep, keep', s, Aggregator.RepeatsOf(r));
      SumCongruent(IdsWhere(|r.subjects|, keep'), Aggregator.RepeatsOf(r), Aggregator.RepeatsOf(r'));
    }
  }

  /** Admitting one more id to a selection adds its summand. */
  lemma {:induction false} IdsWhereGains(n: nat, keep: nat -> bool, keep': nat -> bool, x: nat, f: nat -> int)
    requires x < n && !keep(x) && keep'(x)
    requires forall y: nat :: y != x ==> keep'(y) == keep(y)
    ensures Sum(IdsWhere(n, keep'), f) == Sum(IdsWhere(n, keep), f) + f(x)
  {
    var m: nat := n - 1;
    if m == x {
      IdsWhereAgree(m, keep, keep');
      SumSnoc(IdsWhere(m, keep'), f, x);
    } else {
      IdsWhereGains(m, keep, keep', x, f);
      assert keep'(m) == keep(m);
      if keep(m) {
        SumSnoc(IdsWhere(m, keep'), f, m);
        SumSnoc(IdsWhere(m, keep), f, m);
      }
    }
  }

  /** `Tutor.num_available_times` (models.py:369-370): with no timeslot listed twice, which
      `addAvailableTime` and the availability toggle keep, it counts distinct timeslots. */
  function NumAvailableTimes(r: Roster, t: nat): (count: nat)
    requires t < |r.tutors|
    ensures NoDup(r.tutors[t].availableTimes) ==> count == |Elems(r.tutors[t].availableTimes)|
  {
    if NoDup(r.tutors[t].availableTimes) then
      NoDupCardinality(r.tutors[t].availableTimes);
      |r.tutors[t].availableTimes|
    else |r.tutors[t].availableTimes|
  }

  // ---------------------------------------------------------------------------------------
  // The tutor's login.

  /** The login `User(username, password=username)` creates: current context, not an admin. */
  function NewUser(ctx: Context, username: string): User {
    User(username, username, ctx.year, ctx.studyperiod, "0")
  }

  /** `create_user_with_tutor` (models.py:485-492): when no user of that name exists in the
      current context, a user is created with the username as password and linked to the
      tutor; otherwise nothing changes. Either way a user of that name exists afterwards. */
  function CreateUserWithTutor(r: Roster, ctx: Context, username: string, t: nat): (r': Roster)
    requires t < |r.tutors|
    ensures FindUser(r', ctx, username).Some?
    ensures FindUser(r, ctx, username).Some? ==> r' == r
    ensures FindUser(r, ctx, username).None? ==>
      && r'.users == r.users + [NewUser(ctx, username)]
      && r'.users[|r.users|].password == username
      && |r'.tutors| == |r.tutors| && r'.tutors[t].user == Some(|r.users|)
      && (forall u :: 0 <= u < |r.tutors| && u != t ==> r'.tutors[u] == r.tutors[u])
      && r'.tutors[t] == r.tutors[t].(user := Some(|r.users|))
      && r' == r.(users := r'.users, tutors := r'.tutors)
  {
    if FindUser(r, ctx, username).Some? then r
    else
      var r' := r.(users := r.users + [NewUser(ctx, username)],
                   tutors := r.tutors[t := r.tutors[t].(user := Some(|r.users|))]);
      FirstMatchAfter(r.users, (u: User) => u.year == ctx.year && u.studyperiod == ctx.studyperiod && u.username == username, NewUser(ctx, username));
      r'
  }

  /** Creating the same user twice creates one user. */
  lemma CreateUserIdempotent(r: Roster, ctx: Context, username: string, t: nat)
    requires t < |r.tutors|
    ensures CreateUserWithTutor(CreateUserWithTutor(r, ctx, username, t), ctx, username, t) == CreateUserWithTutor(r, ctx, username, t)
  {
  }

  /** `Tutor.generate_user_for_tutor` (models.py:341-347). `None` where the username rule
      fails (a name starting with a space); otherwise `create_user_with_tutor` runs with the
      username the rule gives, so a login of that name exists and a new one is linked to the
      tutor with the username as password. */
  function GenerateUserForTutor(r: Roster, ctx: Context, t: nat): (r': Option<Roster>)
    requires t < |r.tutors|
    ensures r'.Some? <==> Username(r.tutors[t].name).Some?
    ensures r'.Some? ==> FindUser(r'.value, ctx, Username(r.tutors[t].name).value).Some?
    ensures r'.Some? ==> r'.value == CreateUserWithTutor(r, ctx, Username(r.tutors[t].name).value, t)
  {
    match Username(r.tutors[t].name)
    case None => None
    case Some(username) => Some(CreateUserWithTutor(r, ctx, username, t))
  }

  // ---------------------------------------------------------------------------------------
  // Flag setters.

  /** What a 0/1 form value does to a nullable flag: 1 sets True, 0 sets False, any other
      value keeps the flag. */
  function FlagFor(value: int, current: Option<bool>): Option<bool> {
    if value == 1 then Some(true) else if value == 0 then Some(false) else current
  }

  /** `change_room_projector` (models.py:677-684), and the same rule in `update_room_projector`
      (views.py:956-967). The room is looked up first and only the values 0 and 1 touch it, so
      a missing room fails (`None` has no `projector`) on 0 and 1 alone. */
  function SetRoomProjector(r: Roster, n: nat, value: int): (r': Option<Roster>)
    ensures r'.Some? <==> n < |r.rooms| || (value != 0 && value != 1)
    ensures r'.Some? ==> |r'.value.rooms| == |r.rooms| && r'.value == r.(rooms := r'.value.rooms)
    ensures r'.Some? && n < |r.rooms| ==> r'.value.rooms[n] == r.rooms[n].(projector := FlagFor(value, r.rooms[n].projector))
    ensures r'.Some? ==> forall m :: 0 <= m < |r.rooms| && m != n ==> r'.value.rooms[m] == r.rooms[m]
  {
    if value != 0 && value != 1 then Some(r)
    else if n < |r.rooms| then Some(r.(rooms := r.rooms[n := r.rooms[n].(projector := Some(value == 1))]))
    else None
  }

  /** A room flagged with 1 is one of the engine's projector rooms, and one flagged with 0 is
      not among the rooms the aggregator reads them from. */
  lemma RoomProjectorReachesEngine(r: Roster, n: nat, value: int)
    requires (value == 0 || value == 1) && n < |r.rooms|
    ensures SetRoomProjector(r, n, value).Some?
    ensures value == 1 ==> Aggregator.RoomName(SetRoomProjector(r, n, value).value, n) in Aggregator.ProjectorRoomsOf(SetRoomProjector(r, n, value).value)
    ensures value == 0 ==> n !in Keep(Aggregator.AllRooms(SetRoomProjector(r, n, value).value), Aggregator.HasProjectorOf(SetRoomProjector(r, n, value).value))
  {
    var r' := SetRoomProjector(r, n, value).value;
    KeepMembers(Aggregator.AllRooms(r'), Aggregator.HasProjectorOf(r'));
    if value == 1 {
      var rooms := Keep(Aggregator.AllRooms(r'), Aggregator.HasProjectorOf(r'));
      assert n in Aggregator.AllRooms(r') && Aggregator.HasProjectorOf(r')(n);
      var p :| 0 <= p < |rooms| && rooms[p] == n;
      MapSeqAt(rooms, Aggregator.RoomNameOf(r'), p);
      assert Aggregator.ProjectorRoomsOf(r')[p] == Aggregator.RoomName(r', n);
    }
  }

  /** `change_preferred_timeslot` (models.py:958-964): 1 marks the timeslot preferred, every
      other value marks it not preferred. The timeslot is dereferenced whatever the value, so a
      missing one always fails. */
  function SetPreferredTimeslot(r: Roster, ts: nat, preferred: int): (r': Option<Roster>)
    ensures r'.Some? <==> ts < |r.timeslots|
    ensures r'.Some? ==> |r'.value.timeslots| == |r.timeslots| && r'.value == r.(timeslots := r'.value.timeslots)
    ensures r'.Some? ==> r'.value.timeslots[ts] == r.timeslots[ts].(preferred := Some(preferred == 1))
    ensures r'.Some? ==> forall u :: 0 <= u < |r.timeslots| && u != ts ==> r'.value.timeslots[u] == r.timeslots[u]
  {
    if ts < |r.timeslots| then Some(r.(timeslots := r.timeslots[ts := r.timeslots[ts].(preferred := Some(preferred == 1))]))
    else None
  }

  /** A timeslot of the current timetable marked not preferred is one of the engine's
      non-preferred times, and one marked preferred is not among the slots they come from. */
  lemma PreferredTimeslotReachesEngine(r: Roster, ctx: Context, ts: nat, preferred: int)
    requires ts in Aggregator.TimetableSlots(r, ctx)
    ensures SetPreferredTimeslot(r, ts, preferred).Some?
    ensures preferred != 1 ==>
      Aggregator.SlotKeyOf(SetPreferredTimeslot(r, ts, preferred).value, ts) in Aggregator.NonPreferredOf(SetPreferredTimeslot(r, ts, preferred).value, ctx)
    ensures preferred == 1 ==>
      ts !in Keep(Aggregator.TimetableSlots(SetPreferredTimeslot(r, ts, preferred).value, ctx), Aggregator.NotPreferredOf(SetPreferredTimeslot(r, ts, preferred).value))
  {
    var r' := SetPreferredTimeslot(r, ts, preferred).value;
    KeepMembers(Aggregator.TimetableSlots(r', ctx), Aggregator.NotPreferredOf(r'));
    if preferred != 1 {
      assert ts in Aggregator.TimetableSlots(r', ctx);
      var slots := Keep(Aggregator.TimetableSlots(r', ctx), Aggregator.NotPreferredOf(r'));
      assert Aggregator.NotPreferredOf(r')(ts);
      var p :| 0 <= p < |slots| && slots[p] == ts;
      MapSeqAt(slots, Aggregator.SlotKeyOfId(r'), p);
      assert Aggregator.NonPreferredOf(r', ctx)[p] == Aggregator.SlotKeyOf(r', ts);
    }
  }

  // ---------------------------------------------------------------------------------------
  // A new timeslot.

  const Weekdays: seq<string> := ["Monday", "Tuesday", "Wednesday", "Thursday", "Friday", "Saturday", "Sunday"]

  /** The `daynumeric` of `Timeslot.__init__` (models.py:445): the weekday's position, `None`
      where `list.index` raises ValueError. */
  function DayNumeric(day: string): (k: Option<nat>)
    ensures k.Some? ==> k.value < 7 && Weekdays[k.value] == day
    ensures k.None? <==> day !in Weekdays
  {
    IndexOf(Weekdays, day)
  }

  /** Every weekday gets its own position back. */
  lemma DayNumericOfWeekday(k: nat)
    requires k < 7
    ensures DayNumeric(Weekdays[k]) == Some(k)
  {
    var found := DayNumeric(Weekdays[k]).value;
    assert Weekdays[found] == Weekdays[k];
    assert Weekdays[found][1] == Weekdays[k][1] && Weekdays[found][0] == Weekdays[k][0];
  }

  /** `Timeslot(day, time, preferredtime)` (models.py:441-447) in the current context and
      timetable; `None` for a day that is not a weekday name. */
  function NewTimeslot(ctx: Context, day: string, time: string, preferred: bool): (ts: Option<Timeslot>)
    ensures ts.Some? <==> day in Weekdays
    ensures ts.Some? ==> (ts.value.dayNumeric < 7 && Weekdays[ts.value.dayNumeric] == day
      && ts.value.timetable == ctx.timetable && ts.value.year == ctx.year && ts.value.studyperiod == ctx.studyperiod)
  {
    match DayNumeric(day)
    case None => None
    case Some(k) => Some(Timeslot(day, time, k, ctx.year, ctx.studyperiod, ctx.timetable, Some(preferred)))
  }
}
