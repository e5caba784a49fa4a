/** The roster edits and queries of the request handlers in timetabler/views.py, as functions
    of the roster: moving a student between the classes of a subject, toggling a tutor's
    availability, the admin flag, adding and removing a timetabled class with the single-class
    rule, the eligibility counts and the flag setters. The `Store` class applies the edits in
    place. */
module Handlers {
  import opened Seqs
  import opened Roster
  import opened Crud
  import opened Entities
  import Aggregator

  // ---------------------------------------------------------------------------------------
  // Moving a student into another class of the same subject.

  /** Every class lists each of its students once. */
  ghost predicate ClassListsNoDup(r: Roster) {
    forall p :: 0 <= p < |r.classes| && r.classes[p].Some? ==> NoDup(r.classes[p].value.students)
  }

  /** One pass of the loop at views.py:1071-1073 over a class: the student leaves it if it is a
      class of `subject` that lists them. */
  function Unenrol(k: Option<TimetabledClass>, subject: nat, i: nat): Option<TimetabledClass> {
    if k.Some? && k.value.subject == subject && i in k.value.students
    then Some(k.value.(students := RemoveFirst(k.value.students, i)))
    else k
  }

  /** Class `c` exists: its id is in the table and it has not been deleted. */
  predicate ClassExists(r: Roster, c: nat) {
    c < |r.classes| && r.classes[c].Some?
  }

  /** `update_student_scheduled_class_ajax` (views.py:1062-1076): unless student `i` is already
      in class `c`, they leave every class of its subject and join `c`. Afterwards they are in
      `c`, and (with no class listing a student twice) in no other class of that subject;
      classes of other subjects are untouched. `None` when the class or the student is missing:
      the source dereferences the class, and appends the student to its list. `None` too when
      the student must move but the class's subject row is gone (a subject id past the table):
      the source reads `timetabledclasses` of a `None` subject. */
  function MoveStudent(r: Roster, c: nat, i: nat): (r': Option<Roster>)
    ensures r'.Some? <==> (ClassExists(r, c) && i < |r.students|
      && (i in r.classes[c].value.students || r.classes[c].value.subject < |r.subjects|))
    ensures r'.Some? ==> |r'.value.classes| == |r.classes| && r'.value == r.(classes := r'.value.classes)
    ensures r'.Some? ==> r'.value.classes[c].Some? && i in r'.value.classes[c].value.students
    ensures r'.Some? && ClassListsNoDup(r) && i !in r.classes[c].value.students ==>
      forall p :: (0 <= p < |r.classes| && p != c && r'.value.classes[p].Some? &&
        r'.value.classes[p].value.subject == r.classes[c].value.subject) ==> i !in r'.value.classes[p].value.students
    ensures r'.Some? ==> forall p :: 0 <= p < |r.classes| && (r.classes[p].None? || r.classes[p].value.subject != r.classes[c].value.subject) ==>
      r'.value.classes[p] == r.classes[p]
    ensures r'.Some? && i in r.classes[c].value.students ==> r'.value == r
  {
    if !ClassExists(r, c) || i >= |r.students| then None
    else
      var target := r.classes[c].value;
      if i in target.students then Some(r)
      else if target.subject >= |r.subjects| then None
      else
        Some(r.(classes := seq(|r.classes|, p requires 0 <= p < |r.classes| =>
          if p == c then Some(target.(students := target.students + [i]))
          else Unenrol(r.classes[p], target.subject, i))))
  }

  /** Moving a student keeps every class free of repeated students. */
  lemma MoveStudentKeepsNoDup(r: Roster, c: nat, i: nat)
    requires ClassListsNoDup(r)
    ensures MoveStudent(r, c, i).Some? ==> ClassListsNoDup(MoveStudent(r, c, i).value)
  {
    if MoveStudent(r, c, i).None? {
      return;
    }
    var r' := MoveStudent(r, c, i).value;
    forall p | 0 <= p < |r'.classes| && r'.classes[p].Some? ensures NoDup(r'.classes[p].value.students) {
      if p == c && i !in r.classes[c].value.students {
        var xs := r.classes[c].value.students;
        assert r'.classes[c].value.students == xs + [i];
        forall a, b | 0 <= a < b < |xs| + 1 ensures (xs + [i])[a] != (xs + [i])[b] {
          if b == |xs| {
            assert xs[a] in xs;
          }
        }
      }
    }
  }

  /** Moving a student twice into the same class changes nothing more than moving them once. */
  lemma MoveStudentIdempotent(r: Roster, c: nat, i: nat)
    ensures MoveStudent(r, c, i).Some? ==> MoveStudent(MoveStudent(r, c, i).value, c, i) == MoveStudent(r, c, i)
  {
  }

  // ---------------------------------------------------------------------------------------
  // Toggling availability.

  /** The toggle of views.py:1042-1045: remove the timeslot if listed, else append it. */
  function Toggle(xs: seq<nat>, x: nat): (ys: seq<nat>)
    ensures forall y :: y != x ==> (y in ys <==> y in xs)
    ensures NoDup(xs) ==> NoDup(ys) && (x in ys <==> x !in xs)
  {
    if x in xs then RemoveFirst(xs, x)
    else
      assert NoDup(xs) ==> NoDup(xs + [x]) by {
        if NoDup(xs) {
          forall a, b | 0 <= a < b < |xs| + 1 ensures (xs + [x])[a] != (xs + [x])[b] {
            if b == |xs| {
              assert xs[a] in xs;
            }
          }
        }
      }
      xs + [x]
  }

  /** Toggling twice gives back the same set of timeslots; toggling a timeslot that was not
      listed twice gives back the very same list. */
  lemma ToggleTwice(xs: seq<nat>, x: nat)
    requires NoDup(xs)
    ensures Elems(Toggle(Toggle(xs, x), x)) == Elems(xs)
    ensures x !in xs ==> Toggle(Toggle(xs, x), x) == xs
  {
    if x !in xs {
      RemoveFirstAppended(xs, x);
    } else {
      var once := Toggle(xs, x);
      assert x !in once;
      assert Toggle(once, x) == once + [x];
    }
  }

  /** `update_tutor_availability_ajax` (views.py:1035-1047) on tutor `t` and timeslot `ts`.
      `None` when either is missing: the source dereferences the tutor, and appends the timeslot
      to its list. */
  function ToggleAvailability(r: Roster, t: nat, ts: nat): (r': Option<Roster>)
    ensures r'.Some? <==> t < |r.tutors| && ts < |r.timeslots|
    ensures r'.Some? ==> |r'.value.tutors| == |r.tutors| && r'.value == r.(tutors := r'.value.tutors)
    ensures r'.Some? ==> r'.value.tutors[t] == r.tutors[t].(availableTimes := Toggle(r.tutors[t].availableTimes, ts))
    ensures r'.Some? ==> forall u :: 0 <= u < |r.tutors| && u != t ==> r'.value.tutors[u] == r.tutors[u]
  {
    if t < |r.tutors| && ts < |r.timeslots| then
      Some(r.(tutors := r.tutors[t := r.tutors[t].(availableTimes := Toggle(r.tutors[t].availableTimes, ts))]))
    else None
  }

  // ---------------------------------------------------------------------------------------
  // The admin flag.

  /** `user_admin_ajax` (views.py:1003-1018): an admin other than the user named `admin` loses
      the flag on 0; anyone gains it on 1; every other request leaves it. */
  function AdminFlag(isAdmin: string, username: string, value: int): (flag: string)
    ensures value == 1 ==> flag == "1"
    ensures value == 0 && isAdmin == "1" && username != "admin" ==> flag == "0"
    ensures value != 1 && !(value == 0 && isAdmin == "1" && username != "admin") ==> flag == isAdmin
    ensures username == "admin" && isAdmin == "1" ==> flag == "1"
  {
    if isAdmin == "1" && username != "admin" then
      if value == 0 then "0" else isAdmin
    else
      if value == 1 then "1" else isAdmin
  }

  /** The admin flag after the same request twice is the flag after it once. */
  lemma AdminFlagIdempotent(isAdmin: string, username: string, value: int)
    ensures AdminFlag(AdminFlag(isAdmin, username, value), username, value) == AdminFlag(isAdmin, username, value)
  {
  }

  /** The handler on user `u`; `None` when the user is missing, as the source reads its flag
      whatever the request. */
  function SetAdmin(r: Roster, u: nat, value: int): (r': Option<Roster>)
    ensures r'.Some? <==> u < |r.users|
    ensures r'.Some? ==> |r'.value.users| == |r.users| && r'.value == r.(users := r'.value.users)
    ensures r'.Some? ==> r'.value.users[u] == r.users[u].(isAdmin := AdminFlag(r.users[u].isAdmin, r.users[u].username, value))
    ensures r'.Some? ==> forall v :: 0 <= v < |r.users| && v != u ==> r'.value.users[v] == r.users[v]
  {
    if u < |r.users| then
      Some(r.(users := r.users[u := r.users[u].(isAdmin := AdminFlag(r.users[u].isAdmin, r.users[u].username, value))]))
    else None
  }

  // ---------------------------------------------------------------------------------------
  // Adding and removing a timetabled class.

  /** The one class of a subject that has exactly one. */
  function OnlyClass(r: Roster, s: nat): (c: nat)
    requires |SubjectClasses(r, s)| == 1
    ensures c < |r.classes| && r.classes[c].Some? && r.classes[c].value.subject == s
    ensures forall p :: 0 <= p < |r.classes| && p != c ==> r.classes[p].None? || r.classes[p].value.subject != s
  {
    var c := SubjectClasses(r, s)[0];
    assert c in SubjectClasses(r, s);
    forall p | 0 <= p < |r.classes| && r.classes[p].Some? && r.classes[p].value.subject == s
      ensures p == c
    {
      var q: nat := p;
      assert q in SubjectClasses(r, s);
    }
    c
  }

  /** The single-class rule (views.py:207-209, 362-366): a subject with exactly one class has
      every enrolled student placed in it; otherwise nothing changes. */
  function FillSingleClass(r: Roster, s: nat): (r': Roster)
    ensures |r'.classes| == |r.classes| && r' == r.(classes := r'.classes)
    ensures SubjectClasses(r', s) == SubjectClasses(r, s) && SubjectStudents(r', s) == SubjectStudents(r, s)
    ensures |SubjectClasses(r, s)| == 1 ==>
      var c := OnlyClass(r, s);
      && r'.classes[c] == Some(r.classes[c].value.(students := SubjectStudents(r, s)))
      && forall p :: 0 <= p < |r.classes| && p != c ==> r'.classes[p] == r.classes[p]
    ensures |SubjectClasses(r, s)| != 1 ==> r' == r
  {
    if |SubjectClasses(r, s)| == 1 then
      var c := OnlyClass(r, s);
      var r' := r.(classes := r.classes[c := Some(r.classes[c].value.(students := SubjectStudents(r, s)))]);
      IdsWhereAgree(|r.classes|,
        (p: nat) => p < |r.classes| && r.classes[p].Some? && r.classes[p].value.subject == s,
        (p: nat) => p < |r'.classes| && r'.classes[p].Some? && r'.classes[p].value.subject == s);
      r'
    else r
  }

  /** Applying the single-class rule again changes nothing. */
  lemma FillSingleClassIdempotent(r: Roster, s: nat)
    ensures FillSingleClass(FillSingleClass(r, s), s) == FillSingleClass(r, s)
  {
  }

  /** The query `TimetabledClass.get_or_create` runs (views.py:204-205). */
  function SameClass(ctx: Context, s: nat, ts: nat, tutor: nat): Option<TimetabledClass> -> bool {
    (k: Option<TimetabledClass>) => k.Some? && k.value.year == ctx.year && k.value.studyperiod == ctx.studyperiod
      && k.value.subject == s && k.value.timetable == ctx.timetable && k.value.time == ts && k.value.tutor == tutor
  }

  /** The class `get_or_create` makes when none matches: no room and no students yet. */
  function NewClass(ctx: Context, s: nat, ts: nat, tutor: nat): TimetabledClass {
    TimetabledClass(s, ctx.timetable, ts, tutor, None, ctx.year, ctx.studyperiod, [])
  }

  /** `add_timetabledclass_to_subject` (views.py:199-210): find or create the subject's class at
      timeslot `ts` with the subject's tutor, then apply the single-class rule. `None` when the
      subject or timeslot is missing or the subject has no tutor: the source fails there. */
  function AddTimetabledClass(r: Roster, ctx: Context, code: string, ts: nat): (r': Option<Roster>)
    ensures r'.Some? <==> (FindSubject(r, ctx, code).Some? && ts < |r.timeslots|
      && r.subjects[FindSubject(r, ctx, code).value].tutor.Some?)
    ensures r'.Some? ==>
      var s := FindSubject(r, ctx, code).value;
      && r'.value.subjects == r.subjects && r'.value.students == r.students
      && (exists c :: 0 <= c < |r'.value.classes| && SameClass(ctx, s, ts, r.subjects[s].tutor.value)(r'.value.classes[c]))
      && (|SubjectClasses(r'.value, s)| == 1 ==>
            r'.value.classes[OnlyClass(r'.value, s)].value.students == SubjectStudents(r, s))
    ensures r'.Some? ==> r'.value == r.(classes := r'.value.classes)
    ensures r'.Some? ==>
      var s := FindSubject(r, ctx, code).value;
      var tutor := r.subjects[s].tutor.value;
      && |r.classes| <= |r'.value.classes| <= |r.classes| + 1
      && (|r'.value.classes| == |r.classes| + 1 <==>
            forall p :: 0 <= p < |r.classes| ==> !SameClass(ctx, s, ts, tutor)(r.classes[p]))
      && (forall p :: (0 <= p < |r'.value.classes| &&
            (|SubjectClasses(r'.value, s)| != 1 || p != OnlyClass(r'.value, s))) ==>
            r'.value.classes[p] == (r.classes + [Some(NewClass(ctx, s, ts, tutor))])[p])
  {
    match FindSubject(r, ctx, code)
    case None => None
    case Some(s) =>
      if ts >= |r.timeslots| || r.subjects[s].tutor.None? then None
      else
        var tutor := r.subjects[s].tutor.value;
        var (classes, c) := FindOrAppend(r.classes, SameClass(ctx, s, ts, tutor), Some(NewClass(ctx, s, ts, tutor)));
        var r1 := r.(classes := classes);
        var r2 := FillSingleClass(r1, s);
        assert SameClass(ctx, s, ts, tutor)(r2.classes[c]);
        assert forall p :: 0 <= p < |classes| ==> classes[p] == (r.classes + [Some(NewClass(ctx, s, ts, tutor))])[p];
        Some(r2)
  }

  /** Adding the same class twice is adding it once. */
  lemma AddTimetabledClassIdempotent(r: Roster, ctx: Context, code: string, ts: nat)
    requires AddTimetabledClass(r, ctx, code, ts).Some?
    ensures AddTimetabledClass(AddTimetabledClass(r, ctx, code, ts).value, ctx, code, ts) == AddTimetabledClass(r, ctx, code, ts)
  {
    var s := FindSubject(r, ctx, code).value;
    var tutor := r.subjects[s].tutor.value;
    var matches := SameClass(ctx, s, ts, tutor);
    var novel := Some(NewClass(ctx, s, ts, tutor));
    var (classes, c) := FindOrAppend(r.classes, matches, novel);
    var r1 := r.(classes := classes);
    var r2 := FillSingleClass(r1, s);
    GetOrCreateIdempotent(r.classes, matches, novel);
    assert FirstMatch(classes, matches) == Some(c);
    if |SubjectClasses(r1, s)| == 1 {
      FirstMatchSameKeys(classes, r2.classes, OnlyClass(r1, s), matches);
    }
    assert FindOrAppend(r2.classes, matches, novel) == (r2.classes, c);
    FillSingleClassIdempotent(r1, s);
    assert r2.(classes := r2.classes) == r2;
    assert FindSubject(r2, ctx, code) == Some(s);
  }

  /** Removing class `c` runs to the end: the class exists and its subject row is there. */
  predicate RemoveCompletes(r: Roster, c: nat) {
    ClassExists(r, c) && r.classes[c].value.subject < |r.subjects|
  }

  /** `remove_timetabled_class` (views.py:355-367): class `c` is deleted and the single-class
      rule applied to its subject. `None` when the class is missing: the source reads its
      subject first. When the subject row is gone the deletion is committed and the source then
      fails on the `None` subject, so the roster is the one without the class. */
  function RemoveTimetabledClass(r: Roster, c: nat): (r': Option<Roster>)
    ensures r'.Some? <==> ClassExists(r, c)
    ensures r'.Some? ==> |r'.value.classes| == |r.classes| && r'.value.classes[c].None?
    ensures r'.Some? ==> r'.value == r.(classes := r'.value.classes)
    ensures r'.Some? && RemoveCompletes(r, c) ==> var s := r.classes[c].value.subject;
      |SubjectClasses(r'.value, s)| == 1 ==>
        && r'.value.classes[OnlyClass(r'.value, s)].value.students == SubjectStudents(r, s)
        && forall p :: 0 <= p < |r.classes| && p != OnlyClass(r'.value, s) ==> r'.value.classes[p] == r.classes[c := None][p]
    ensures r'.Some? ==> var s := r.classes[c].value.subject;
      (!RemoveCompletes(r, c) || |SubjectClasses(r'.value, s)| != 1) ==> r'.value == r.(classes := r.classes[c := None])
  {
    if !ClassExists(r, c) then None
    else
      var s := r.classes[c].value.subject;
      var r1 := r.(classes := r.classes[c := None]);
      if s < |r.subjects| then Some(FillSingleClass(r1, s)) else Some(r1)
  }

  // ---------------------------------------------------------------------------------------
  // Eligibility counts.

  /** The current subjects that have no tutor (views.py:845-847, 869-870). */
  function UnmappedSubjects(r: Roster, ctx: Context): seq<nat> {
    IdsWhere(|r.subjects|, (s: nat) => s < |r.subjects| && r.subjects[s].year == ctx.year
      && r.subjects[s].studyperiod == ctx.studyperiod && r.subjects[s].tutor.None?)
  }

  /** All subjects of the current year and study period. */
  function ContextSubjects(r: Roster, ctx: Context): seq<nat> {
    IdsWhere(|r.subjects|, (s: nat) => s < |r.subjects| && r.subjects[s].year == ctx.year
      && r.subjects[s].studyperiod == ctx.studyperiod)
  }

  /** `vieweligiblesubjects_ajax` and the "Eligible Subjects" count (views.py:843-860, 871-873):
      exactly the current subjects with no tutor and at least three enrolled students. */
  function EligibleSubjects(r: Roster, ctx: Context): (ids: seq<nat>)
    ensures NoDup(ids)
    ensures forall s: nat :: s in ids <==> (s < |r.subjects| && r.subjects[s].year == ctx.year
      && r.subjects[s].studyperiod == ctx.studyperiod && r.subjects[s].tutor.None? && |SubjectStudents(r, s)| >= 3)
  {
    KeepMembers(UnmappedSubjects(r, ctx), EnoughStudentsOf(r));
    Keep(UnmappedSubjects(r, ctx), EnoughStudentsOf(r))
  }

  /** The eligibility test on enrolment: three students or more. */
  function EnoughStudentsOf(r: Roster): nat -> bool { (s: nat) => |SubjectStudents(r, s)| >= 3 }

  /** `num_eligible_subjects_mapped` (views.py:864-877): the eligible subjects and the current
      subjects with a tutor ("Mapped Subjects", the subjects the aggregator schedules). Together
      they never outnumber the current subjects. */
  function EligibleAndMapped(r: Roster, ctx: Context): (counts: (nat, nat))
    ensures counts.0 + counts.1 <= |ContextSubjects(r, ctx)|
    ensures counts.0 == |EligibleSubjects(r, ctx)|
    ensures counts.1 == |Aggregator.CurrentSubjects(r, ctx)|
  {
    UnmappedAndMapped(r, ctx);
    (|EligibleSubjects(r, ctx)|, |Aggregator.CurrentSubjects(r, ctx)|)
  }

  /** The current subjects split into those without a tutor and those with one. */
  lemma UnmappedAndMapped(r: Roster, ctx: Context)
    ensures |UnmappedSubjects(r, ctx)| + |Aggregator.CurrentSubjects(r, ctx)| == |ContextSubjects(r, ctx)|
  {
    var current, unmapped, mapped := ContextSubjects(r, ctx), UnmappedSubjects(r, ctx), Aggregator.CurrentSubjects(r, ctx);
    NoDupCardinality(current);
    NoDupCardinality(unmapped);
    NoDupCardinality(mapped);
    assert Elems(current) == Elems(unmapped) + Elems(mapped);
    assert Elems(unmapped) * Elems(mapped) == {};
  }

  // ---------------------------------------------------------------------------------------
  // Flag setters of the handlers.

  /** `update_needsprojector` (views.py:931-942): 1 sets the subject's flag, 0 clears it, and
      any other value leaves it. The subject is only dereferenced for 0 and 1, so a missing one
      fails there alone. */
  function SetNeedsProjector(r: Roster, s: nat, value: int): (r': Option<Roster>)
    ensures r'.Some? <==> s < |r.subjects| || (value != 0 && value != 1)
    ensures r'.Some? ==> |r'.value.subjects| == |r.subjects| && r'.value == r.(subjects := r'.value.subjects)
    ensures r'.Some? && s < |r.subjects| ==> r'.value.subjects[s] == r.subjects[s].(needsProjector := FlagFor(value, r.subjects[s].needsProjector))
    ensures r'.Some? ==> forall u :: 0 <= u < |r.subjects| && u != s ==> r'.value.subjects[u] == r.subjects[u]
  {
    if value != 0 && value != 1 then Some(r)
    else if s < |r.subjects| then Some(r.(subjects := r.subjects[s := r.subjects[s].(needsProjector := Some(value == 1))]))
    else None
  }

  /** A scheduled subject flagged with 1 is one the engine must give a projector room. */
  lemma NeedsProjectorReachesEngine(r: Roster, ctx: Context, s: nat)
    requires s in Aggregator.CurrentSubjects(r, ctx)
    ensures SetNeedsProjector(r, s, 1).Some?
    ensures Aggregator.SubjectCode(SetNeedsProjector(r, s, 1).value, s) in Aggregator.ProjectorsOf(SetNeedsProjector(r, s, 1).value, ctx)
  {
    assert s < |r.subjects|;
    var r' := SetNeedsProjector(r, s, 1).value;
    IdsWhereAgree(|r.subjects|,
      (x: nat) => x < |r.subjects| && r.subjects[x].year == ctx.year
        && r.subjects[x].studyperiod == ctx.studyperiod && r.subjects[x].tutor.Some?,
      (x: nat) => x < |r'.subjects| && r'.subjects[x].year == ctx.year
        && r'.subjects[x].studyperiod == ctx.studyperiod && r'.subjects[x].tutor.Some?);
    var kept := Keep(Aggregator.CurrentSubjects(r', ctx), Aggregator.NeedsProjectorOf(r'));
    KeepMembers(Aggregator.CurrentSubjects(r', ctx), Aggregator.NeedsProjectorOf(r'));
    assert Aggregator.NeedsProjectorOf(r')(s);
    var p :| 0 <= p < |kept| && kept[p] == s;
    MapSeqAt(kept, Aggregator.CodeOf(r'), p);
    assert Aggregator.ProjectorsOf(r', ctx)[p] == Aggregator.SubjectCode(r', s);
  }

  /** `change_preferred_time` (views.py:944-953): 1 marks the timeslot preferred and 0 not
      preferred, through `update`; any other value leaves it. A missing timeslot fails on 0
      and 1 alone, where `update` is called on it. */
  function SetPreferredTime(r: Roster, ts: nat, value: int): (r': Option<Roster>)
    ensures r'.Some? <==> ts < |r.timeslots| || (value != 0 && value != 1)
    ensures r'.Some? ==> |r'.value.timeslots| == |r.timeslots| && r'.value == r.(timeslots := r'.value.timeslots)
    ensures r'.Some? && ts < |r.timeslots| ==> r'.value.timeslots[ts] == r.timeslots[ts].(preferred := FlagFor(value, r.timeslots[ts].preferred))
    ensures r'.Some? ==> forall u :: 0 <= u < |r.timeslots| && u != ts ==> r'.value.timeslots[u] == r.timeslots[u]
  {
    if value != 0 && value != 1 then Some(r)
    else if ts < |r.timeslots| then Some(r.(timeslots := r.timeslots[ts := r.timeslots[ts].(preferred := Some(value == 1))]))
    else None
  }

  /** The two preferred-time handlers agree on 0 and 1, failures included. On any other value
      `change_preferred_time` leaves the roster as it was, even for a missing timeslot, while
      `change_preferred_timeslot` marks an existing timeslot not preferred. */
  lemma PreferredHandlersCompared(r: Roster, ts: nat, value: int)
    ensures value == 0 || value == 1 ==> SetPreferredTime(r, ts, value) == SetPreferredTimeslot(r, ts, value)
    ensures value != 0 && value != 1 ==> SetPreferredTime(r, ts, value) == Some(r)
    ensures value != 0 && value != 1 && ts < |r.timeslots| ==>
      SetPreferredTimeslot(r, ts, value).Some? && SetPreferredTimeslot(r, ts, value).value.timeslots[ts].preferred == Some(false)
  {
  }
}
