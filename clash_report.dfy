/** The clash report (`viewclashreportajax`, timetabler/views.py:880-921): for every timeslot
    of the current year and study period, the students listed by two or more of its classes,
    each with the subject names of those classes. */
module ClashReport {
  import opened Seqs
  import opened Roster
  import Handlers

  /** One row of the report: a student, the timeslot, and the subject names collected for
      them there. */
  datatype Clash = Clash(student: nat, timeslot: nat, subjects: seq<string>)

  /** `n` copies of `x`. */
  function Copies(n: nat, x: string): (xs: seq<string>)
    ensures |xs| == n
  {
    if n == 0 then [] else Copies(n - 1, x) + [x]
  }

  /** `timeclass.subject.subname`; a class whose subject is missing names nothing. */
  function SubjectTitle(r: Roster, s: nat): string {
    if s < |r.subjects| then r.subjects[s].subname else ""
  }

  /** The names class `c` adds to student `i`'s entry: its subject's name once for every time
      the class lists them. */
  function ClassEntries(r: Roster, c: nat, i: nat): seq<string> {
    if c < |r.classes| && r.classes[c].Some?
    then Copies(multiset(r.classes[c].value.students)[i], SubjectTitle(r, r.classes[c].value.subject))
    else []
  }

  /** Student `i`'s entry after the classes `cs`, in turn. */
  function Entries(r: Roster, cs: seq<nat>, i: nat): seq<string> {
    if cs == [] then [] else Entries(r, cs[..|cs| - 1], i) + ClassEntries(r, cs[|cs| - 1], i)
  }

  /** A row the report must hold: the student's entry at that timeslot has two or more names,
      and the row carries that entry. */
  predicate IsClash(r: Roster, row: Clash) {
    var entry := Entries(r, TimeslotClasses(r, row.timeslot), row.student);
    |entry| >= 2 && row.subjects == entry
  }

  /** The students met in the first `j` of a class's students, on top of those met before. */
  ghost predicate Met(entries: map<nat, seq<string>>, students: seq<nat>, j: nat, entries': map<nat, seq<string>>)
    requires j <= |students|
  {
    forall i :: i in entries' <==> i in entries || i in students[..j]
  }

  /** Each student met holds the names collected before the class and `name` once for each
      time the first `j` students list them. */
  ghost predicate Collected(entries: map<nat, seq<string>>, students: seq<nat>, j: nat, name: string,
    entries': map<nat, seq<string>>)
    requires j <= |students|
  {
    forall i :: i in entries' ==>
      entries'[i] == (if i in entries then entries[i] else []) + Copies(multiset(students[..j])[i], name)
  }

  /** `clash` holds exactly the students whose names reached two. */
  ghost predicate ClashesOf(entries: map<nat, seq<string>>, clash: seq<nat>) {
    forall i :: i in clash <==> i in entries && |entries[i]| >= 2
  }

  /** The names student `i` holds once they are met again. */
  function WithName(entries: map<nat, seq<string>>, i: nat, name: string): map<nat, seq<string>> {
    entries[i := (if i in entries then entries[i] else []) + [name]]
  }

  /** One more student met. */
  lemma MetStep(entries: map<nat, seq<string>>, students: seq<nat>, j: nat, name: string, entries': map<nat, seq<string>>)
    requires j < |students| && Met(entries, students, j, entries')
    ensures Met(entries, students, j + 1, WithName(entries', students[j], name))
  {
    assert students[..j + 1] == students[..j] + [students[j]];
  }

  /** One more name collected for the student met. */
  lemma CollectedStep(entries: map<nat, seq<string>>, students: seq<nat>, j: nat, name: string, entries': map<nat, seq<string>>)
    requires j < |students| && Met(entries, students, j, entries') && Collected(entries, students, j, name, entries')
    ensures Collected(entries, students, j + 1, name, WithName(entries', students[j], name))
  {
    var i := students[j];
    var more := WithName(entries', i, name);
    assert students[..j + 1] == students[..j] + [i];
    forall x | x in more
      ensures more[x] == (if x in entries then entries[x] else []) + Copies(multiset(students[..j + 1])[x], name)
    {
      var base := if x in entries then entries[x] else [];
      var m := multiset(students[..j])[x];
      if x == i {
        assert multiset(students[..j + 1])[x] == m + 1;
        assert Copies(m + 1, name) == Copies(m, name) + [name];
        if i in entries' {
          assert more[i] == (base + Copies(m, name)) + [name];
        } else {
          assert m == 0 && base == [];
        }
      } else {
        assert multiset(students[..j + 1])[x] == m;
      }
    }
  }

  /** A student whose names reach two joins `clash`; names never shrink, so no one leaves. */
  lemma ClashesStep(entries': map<nat, seq<string>>, clash': seq<nat>, i: nat, name: string)
    requires ClashesOf(entries', clash')
    ensures var more := WithName(entries', i, name);
      ClashesOf(more, if |more[i]| >= 2 then clash' + [i] else clash')
  {
  }

  /** The loop over the students of one class (views.py:890-899). Every key of `entries` is a
      student met so far, holding the names collected for them; `clash` holds exactly the
      students whose names reached two. */
  method CollectClass(r: Roster, c: nat, entries: map<nat, seq<string>>, clash: seq<nat>)
    returns (entries': map<nat, seq<string>>, clash': seq<nat>)
    requires c < |r.classes| && r.classes[c].Some?
    requires ClashesOf(entries, clash)
    ensures forall i :: i in entries' <==> i in entries || i in r.classes[c].value.students
    ensures forall i :: i in entries' ==> entries'[i] == (if i in entries then entries[i] else []) + ClassEntries(r, c, i)
    ensures ClashesOf(entries', clash')
  {
    var students := r.classes[c].value.students;
    var name := SubjectTitle(r, r.classes[c].value.subject);
    entries', clash' := entries, clash;
    assert students[..0] == [];
    for j := 0 to |students|
      invariant Met(entries, students, j, entries')
      invariant Collected(entries, students, j, name, entries')
      invariant ClashesOf(entries', clash')
    {
      var i := students[j];
      MetStep(entries, students, j, name, entries');
      CollectedStep(entries, students, j, name, entries');
      ClashesStep(entries', clash', i, name);
      var names := if i in entries' then entries'[i] else [];
      entries' := entries'[i := names + [name]];
      if |entries'[i]| >= 2 {
        clash' := clash' + [i];
      }
    }
    assert students[..|students|] == students;
  }

  /** What the loop over a timeslot's classes keeps after its first `k` classes. */
  ghost predicate TimeslotProgress(r: Roster, cs: seq<nat>, k: nat, entries: map<nat, seq<string>>, clash: seq<nat>)
    requires k <= |cs|
  {
    && (forall i :: i in entries ==> entries[i] == Entries(r, cs[..k], i))
    && (forall i :: i !in entries ==> Entries(r, cs[..k], i) == [])
    && ClashesOf(entries, clash)
  }

  /** One class of the loop keeps `TimeslotProgress`. */
  lemma TimeslotProgressStep(r: Roster, cs: seq<nat>, k: nat, entries: map<nat, seq<string>>,
    entries': map<nat, seq<string>>, clash': seq<nat>)
    requires k < |cs| && cs[k] < |r.classes| && r.classes[cs[k]].Some?
    requires forall i :: i in entries ==> entries[i] == Entries(r, cs[..k], i)
    requires forall i :: i !in entries ==> Entries(r, cs[..k], i) == []
    requires forall i :: i in entries' <==> i in entries || i in r.classes[cs[k]].value.students
    requires forall i :: i in entries' ==> entries'[i] == (if i in entries then entries[i] else []) + ClassEntries(r, cs[k], i)
    requires ClashesOf(entries', clash')
    ensures TimeslotProgress(r, cs, k + 1, entries', clash')
  {
    assert cs[..k + 1][..k] == cs[..k];
    forall i | i !in entries' ensures Entries(r, cs[..k + 1], i) == [] {
      assert multiset(r.classes[cs[k]].value.students)[i] == 0;
    }
  }

  /** The report for one timeslot (views.py:886-901): the students whose entries reached two
      names, in the order they did, and each one's entry. */
  method CollectTimeslot(r: Roster, ts: nat) returns (order: seq<nat>, report: map<nat, seq<string>>)
    ensures NoDup(order) && forall i :: i in order <==> i in report
    ensures forall i :: i in report <==> |Entries(r, TimeslotClasses(r, ts), i)| >= 2
    ensures forall i :: i in report ==> report[i] == Entries(r, TimeslotClasses(r, ts), i)
  {
    var cs := TimeslotClasses(r, ts);
    var entries: map<nat, seq<string>> := map[];
    var clash: seq<nat> := [];
    assert cs[..0] == [];
    for k := 0 to |cs|
      invariant TimeslotProgress(r, cs, k, entries, clash)
    {
      assert cs[k] in cs;
      var entries', clash' := CollectClass(r, cs[k], entries, clash);
      TimeslotProgressStep(r, cs, k, entries, entries', clash');
      entries, clash := entries', clash';
    }
    assert cs[..|cs|] == cs;
    order := Dedup(clash);
    report := map i | i in clash :: entries[i];
  }

  /** The rows for one timeslot, in the order of its report. */
  function TimeslotRows(ts: nat, order: seq<nat>, report: map<nat, seq<string>>): seq<Clash> {
    MapSeq(order, RowOf(ts, report))
  }

  /** One student's row of a timeslot's report. */
  function RowOf(ts: nat, report: map<nat, seq<string>>): nat -> Clash {
    (i: nat) => Clash(i, ts, if i in report then report[i] else [])
  }

  /** The rows of a timeslot's report are exactly its clashes, each once. */
  lemma TimeslotRowsMeaning(r: Roster, ts: nat, order: seq<nat>, report: map<nat, seq<string>>)
    requires NoDup(order) && forall i :: i in order <==> i in report
    requires forall i :: i in report <==> |Entries(r, TimeslotClasses(r, ts), i)| >= 2
    requires forall i :: i in report ==> report[i] == Entries(r, TimeslotClasses(r, ts), i)
    ensures forall row :: row in TimeslotRows(ts, order, report) <==> row.timeslot == ts && IsClash(r, row)
    ensures NoDup(TimeslotRows(ts, order, report))
  {
    var more := TimeslotRows(ts, order, report);
    forall row | row in more ensures row.timeslot == ts && IsClash(r, row) {
      var p :| 0 <= p < |more| && more[p] == row;
      MapSeqAt(order, RowOf(ts, report), p);
      assert order[p] in order;
    }
    forall row: Clash | row.timeslot == ts && IsClash(r, row) ensures row in more {
      var p :| 0 <= p < |order| && order[p] == row.student;
      MapSeqAt(order, RowOf(ts, report), p);
      assert more[p] == row;
    }
    forall p, q | 0 <= p < q < |more| ensures more[p] != more[q] {
      MapSeqAt(order, RowOf(ts, report), p);
      MapSeqAt(order, RowOf(ts, report), q);
      assert more[p].student == order[p] && more[q].student == order[q];
    }
  }

  /** Two lists without repeats and with nothing in common join into one without repeats. */
  lemma NoDupAppend(xs: seq<Clash>, ys: seq<Clash>)
    requires NoDup(xs) && NoDup(ys) && forall y :: y in ys ==> y !in xs
    ensures NoDup(xs + ys)
  {
    forall p, q | 0 <= p < q < |xs + ys| ensures (xs + ys)[p] != (xs + ys)[q] {
      if p < |xs| && q >= |xs| {
        assert (xs + ys)[q] in ys;
        assert (xs + ys)[p] in xs;
      }
    }
  }

  /** `viewclashreportajax` (views.py:880-921): every clash of every current timeslot, each
      once. */
  method ClashRows(r: Roster, ctx: Context) returns (rows: seq<Clash>)
    ensures forall row :: row in rows <==> row.timeslot in CurrentTimeslots(r, ctx) && IsClash(r, row)
    ensures NoDup(rows)
  {
    var tss := CurrentTimeslots(r, ctx);
    rows := [];
    for t := 0 to |tss|
      invariant forall row :: row in rows <==> row.timeslot in tss[..t] && IsClash(r, row)
      invariant NoDup(rows)
    {
      var ts := tss[t];
      var order, report := CollectTimeslot(r, ts);
      var more := TimeslotRows(ts, order, report);
      TimeslotRowsMeaning(r, ts, order, report);
      assert tss[..t + 1] == tss[..t] + [ts];
      assert ts !in tss[..t];
      NoDupAppend(rows, more);
      rows := rows + more;
    }
    assert tss[..|tss|] == tss;
  }

  /** A student appears once in a list without repeats, and not at all if absent. */
  lemma {:induction false} NoDupCount(s: seq<nat>, x: nat)
    requires NoDup(s)
    ensures multiset(s)[x] == if x in s then 1 else 0
  {
    if s != [] {
      NoDupCons(s);
      NoDupCount(s[1..], x);
      assert s == [s[0]] + s[1..];
    }
  }

  /** Whether class `c` lists student `i`. */
  function ListsStudent(r: Roster, i: nat): nat -> bool {
    (c: nat) => c < |r.classes| && r.classes[c].Some? && i in r.classes[c].value.students
  }

  /** With no class listing a student twice, a student's entry names one subject for each
      class that lists them: the report shows a student at a timeslot exactly when two or more
      of its classes list them. */
  lemma {:induction false} EntriesCountClasses(r: Roster, cs: seq<nat>, i: nat)
    requires Handlers.ClassListsNoDup(r)
    ensures |Entries(r, cs, i)| == |Keep(cs, ListsStudent(r, i))|
  {
    if cs != [] {
      var n := |cs| - 1;
      EntriesCountClasses(r, cs[..n], i);
      var c := cs[n];
      if c < |r.classes| && r.classes[c].Some? {
        NoDupCount(r.classes[c].value.students, i);
      }
    }
  }
}
