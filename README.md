# School timetabler core, modelled and verified in Dafny

The model covers the timetabler's scheduling core:

- **Aggregator** (`get_timetable_data`): flattens the roster of one year, study period and timetable into the solver's index sets.
- **Two-stage engine** (`runtimetable_with_rooms_two_step`):
  - a class/timeslot/tutor assignment programme;
  - the `classpop` map taken from its solution;
  - a room-allocation programme over the scheduled classes;
  - the status gate that decides whether records are written.
- **Materialiser** (`add_classes_to_timetable_twostep`): turns the solved values into timetabled classes.
- **Small model operations** of the model classes: `get_or_create`/`update`, the add-if-absent links, the free-timeslot queries, usernames, and the projector and preferred-time setters.
- **Request handlers** that edit the roster: moving a student, toggling availability, the admin flag, the single-class rule, the clash report, and the eligibility counts.

How the model is laid out:

- **Database:** the roster is a value (`Roster.Roster`). `Store.Store` is a class holding its tables. Each Store method changes the tables as the matching value-level function says. The facts proved about that function are the method's guarantees.
- **Context:** the year, study period and timetable are a `Context` parameter, not reads of the Admin table.
- **Integer programmes:**
  - Each programme's constraint system is a predicate over an integer valuation of its variables (`StageOne.Feasible`, `StageTwo.Feasible2`).
  - Each objective is a function.
  - The CBC solver is an oracle: an `Optimal` report carries a feasible valuation of least objective.
  - The lemmas say what any feasible or optimal valuation guarantees.

Files:

| File | Contents |
|---|---|
| `seqs.dfy`, `sums.dfy` | Python list idioms and `lpSum` |
| `roster.dfy`, `timetable_data.dfy` | the database and the aggregate's 18-tuple |
| `aggregator.dfy` | the aggregator |
| `linearisation.dfy`, `stage_one.dfy`, `stage_one_guarantees.dfy` | stage 1 |
| `class_population.dfy` | `classpop` |
| `stage_two.dfy`, `stage_two_guarantees.dfy` | stage 2 |
| `materialise.dfy`, `record_guarantees.dfy` | the records |
| `engine.dfy` | the pipeline |
| `crud.dfy` | `CRUDMixin` |
| `usernames.dfy` | usernames |
| `entities.dfy` | the model-class operations |
| `handlers.dfy`, `clash_report.dfy` | the request handlers |
| `form_helpers.dfy` | the form helpers |
| `store.dfy` | the mutable store |

### Where the code and its design description differ (the model follows the code)

- **Clash indicator.** It is sometimes described as forcing 1 for every student with two or more sessions at a timeslot. As written, `StudentTime` is binary. Its lower bound `0.3*(0.5n - 0.5)` exceeds 1 once n >= 8, so any such valuation is infeasible. `Linearisation.ClashIndicatorMeaning` states both the 0/1 behaviour for n <= 7 and this infeasibility.
- **Aggregate and KeyError.** The aggregate is described as failing only on an incomplete snapshot. As written, `TEACHERMAPPING` lists every subject of a tutor, current or not (models.py:740-741). `SUBJECTMAPPING` and `REPEATS` hold only current tutored subjects. So a tutor who also teaches a subject of another period triggers a KeyError at helpers.py:46. The model states this as the precondition `TutorsTeachOnlyCurrent`.
- **Tutor-day and tutor-room indicators.** These are valid only up to 10 sessions per tutor per day and 100 sessions per tutor per room. With more, the programme is infeasible (`Linearisation.UsageIndicatorMeaning`).

## Model

| member | source | states |
|---|---|---|
| Aggregator.GetTimetableData | timetabler/models.py:699-780 | The source's loops produce exactly the aggregate that `TimetableDataOf` describes for the snapshot and context. |
| Aggregator.SubjectPass | timetabler/models.py:720-732 | The subject loop yields SUBJECTS in query order, each subject's tutor name, the distinct tutors in order of first appearance (`alltutors`), and every enrolled student name before deduplication. |
| Aggregator.TutorPass | timetabler/models.py:735-743 | The tutor loop gives each tutor name that tutor's available slot keys and taught codes; the last tutor of a name wins. |
| Aggregator.RoomPass | timetabler/models.py:746-753 | The room loop yields ROOMS, PROJECTORROOMS and CAPACITIES as the aggregate defines them. |
| Aggregator.SlotPass | timetabler/models.py:762-766 | The slot loop yields TIMES, the raw day list and NONPREFERREDTIMES, in slot order. |
| Aggregator.DaysPass | timetabler/models.py:769-775 | The three DAYS loops together give one entry per day holding that day's slot keys once each. |
| Aggregator.EmptyDays | timetabler/models.py:770-771 | DAYS starts keyed by exactly the days, each with an empty list. |
| Aggregator.FillDays | timetabler/models.py:772-773 | After the fill loop, every day's entry is that day's slot keys in slot order. |
| Aggregator.DedupDays | timetabler/models.py:774-775 | After the set loop, every day's entry is its filled entry with repeats removed. |
| Aggregator.EnrolledNames | timetabler/models.py:727-728 | The collected names are exactly the names of the students enrolled in the given subjects. |
| Aggregator.AggregateStudents | timetabler/models.py:727-733 | STUDENTS has no repeats; a name is in it exactly when some student of that name is enrolled in a current subject that has a tutor. |
| Aggregator.AggregateTeachers | timetabler/models.py:724-743 | TEACHERS has no repeats and holds exactly the tutor names of the current tutored subjects; TEACHERMAPPING and TUTORAVAILABILITY are keyed by exactly those names. |
| Aggregator.AggregateSubjectKeys | timetabler/models.py:720-723 | SUBJECTMAPPING and REPEATS are keyed by exactly the codes in SUBJECTS. |
| Aggregator.AggregateSubjectEntry | timetabler/models.py:720-730 | For the last current subject with a given code, SUBJECTMAPPING[code] is that subject's enrolled student names once each, and REPEATS[code] is its repeat count. |
| Aggregator.AggregateProjectors | timetabler/models.py:731-732 | A code is in PROJECTORS exactly when a current tutored subject with that code has `needsprojector` True; null counts as not needed. |
| Aggregator.AggregateProjectorRooms | timetabler/models.py:748-749 | A name is in PROJECTORROOMS exactly when a room of that name has `projector` True; null counts as no projector. |
| Aggregator.AggregateCapacities | timetabler/models.py:750-753 | CAPACITIES maps a room's name to its capacity, or to the default of 20 when the capacity is null; among rooms sharing a name, the last one's entry holds. |
| Aggregator.AggregateTimes | timetabler/models.py:762-763 | TIMES holds exactly the `day + " " + time` keys of the current timetable's slots. |
| Aggregator.AggregateNonPreferred | timetabler/models.py:765-766 | NONPREFERREDTIMES holds exactly the keys of the current slots whose `preferredtime` is False; null counts as preferred. |
| Aggregator.AggregateDayKeys | timetabler/models.py:764-771 | `day` has no repeats, and DAYS is keyed by exactly the days on which the current timetable has a slot. |
| Aggregator.AggregateDaySlots | timetabler/models.py:772-775 | Each DAYS entry has no repeats and holds exactly the keys of that day's slots. |
| Aggregator.AggregateDaysCoverTimes | timetabler/models.py:762-775 | Taken together, the DAYS entries hold exactly TIMES, so DAYS partitions TIMES by day. |
| Aggregator.AggregateTutorsKnown | timetabler/models.py:735-737 | Every name in TEACHERS has a TEACHERMAPPING and a TUTORAVAILABILITY entry. |
| Aggregator.AggregateTimesDistinct | timetabler/models.py:762-763 | TIMES has no repeats exactly when no two current timeslots share a day and a time. |
| Aggregator.AggregateRoomsDistinct | timetabler/models.py:746-747 | ROOMS has no repeats exactly when no two rooms share a name. |
| Aggregator.AggregateDistinct | timetabler/models.py:720-763 | When current timeslot keys and room names are unique, every index list the materialiser reads is duplicate-free. |
| Aggregator.AggregateTaughtKnown | timetabler/models.py:740-741 | If every subject of a listed tutor is current, every code in TEACHERMAPPING has SUBJECTMAPPING and REPEATS entries. |
| Aggregator.AggregateDaysKnown | timetabler/models.py:764-775 | `day` lists each day once, DAYS is keyed by it, and every slot listed in DAYS is in TIMES. |
| Aggregator.AggregateRoomsKnown | timetabler/models.py:746-753 | Every projector room is a room, and every room has a capacity. |
| Aggregator.AggregateWellFormed | timetabler/helpers.py:45-51 | If every subject of a listed tutor is current, every dictionary lookup the two programmes make on the aggregate succeeds. |
| Linearisation.DayScaling | timetabler/helpers.py:72-80 | The tutor-day bound with coefficient 0.1, read over the reals, is the integer bound `10w >= c`. |
| Linearisation.RoomScaling | timetabler/helpers.py:198-203 | The tutor-room bound with coefficient 0.01, read over the reals, is the integer bound `100w >= c`. |
| Linearisation.UsageIndicatorMeaning | timetabler/helpers.py:72-80 | A binary w with `c/scale <= w <= c` can be satisfied exactly when `c <= scale`, and then w is 1 iff c >= 1. |
| Linearisation.ClashScaling | timetabler/helpers.py:139-142 | The two clash bounds with coefficients 1/2, 0.3 and 0.5, read over the reals, are `2s <= n` and `20s >= 3n - 3`. |
| Linearisation.ClashIndicatorMeaning | timetabler/helpers.py:139-142 | The clash indicator is 0 for n <= 1, 1 for 2 <= n <= 7, and cannot be satisfied for n >= 8. |
| Linearisation.PositivePartLeast | timetabler/helpers.py:126-129 | `max(x, 0)` satisfies the positive-part pair and is the least value that does. |
| StageOneGuarantees.StudentPlacedOnce | timetabler/helpers.py:88-106 | In a feasible valuation, an enrolled student of a tutor's subject attends it at exactly one timeslot; that session runs there, and the tutor is available then. |
| StageOneGuarantees.SessionRunsOnlyWhenAvailable | timetabler/helpers.py:88-91 | A running session's timeslot is in its tutor's availability. |
| StageOneGuarantees.RepeatsExact | timetabler/helpers.py:112-114 | A tutor's subject runs at exactly REPEATS[j] entries of TIMES. These are distinct timeslots when TIMES repeats no key. |
| StageOneGuarantees.TutorOneAtATime | timetabler/helpers.py:132-134 | Two subjects a tutor runs at the same timeslot are the same subject. |
| StageOneGuarantees.TutorsAtTimeWithinRooms | timetabler/helpers.py:119-120 | At any timeslot, the tutors teaching there are exactly those with a running subject, and there are at most `len(ROOMS)` of them. |
| StageOneGuarantees.ClassSizeBounds | timetabler/helpers.py:157-162 | A session's population is the number of its enrolled students who attend. A running session's population is between `minclasssize` and `maxclasssize`; a session that does not run has none. |
| StageOneGuarantees.TutorDayMeaning | timetabler/helpers.py:72-80 | The tutor-day indicator is 1 exactly on days the tutor teaches. A tutor has at most ten sessions per day. The per-tutor total counts the days they teach. |
| StageOneGuarantees.ClashMeaning | timetabler/helpers.py:137-144 | The clash indicator is 1 exactly when the student attends two or more sessions at the timeslot. No student attends more than seven at once. `StudentSum` counts the student's clashing timeslots. |
| StageOneGuarantees.ProjectorOverflowAtOptimum | timetabler/helpers.py:126-129 | At an optimum, each timeslot's projector overflow equals `max(0, projector sessions - numroomsprojector)`. |
| StageOneGuarantees.NonPreferredTermZero | timetabler/helpers.py:147-152 | The non-preferred term of the objective is non-negative, and 0 exactly when no session runs at a non-preferred timeslot. |
| ClassPopulation.ClassPopulationOf | timetabler/helpers.py:172-177 | `classpop`'s keys are exactly the sessions of the programme whose SubjectVariables value is 1. |
| ClassPopulation.ExtractClassPopulation | timetabler/helpers.py:172-177 | The nested loops build exactly that `classpop`. |
| ClassPopulation.ClassPopulationBounds | timetabler/helpers.py:157-177 | Under the stage-1 constraints, each `classpop` value is the number of enrolled students attending that session, and lies within the class-size limits. |
| StageTwoGuarantees.OneRoomPerClass | timetabler/helpers.py:209-213 | In a feasible room allocation, every session of `classpop` gets exactly one room. |
| StageTwoGuarantees.RoomHoldsOneClass | timetabler/helpers.py:224-226 | Two sessions of `classpop` placed in the same room at the same timeslot are the same session. |
| StageTwoGuarantees.TutorRoomMeaning | timetabler/helpers.py:198-205 | The tutor-room indicator is 1 exactly for rooms the tutor teaches in. A tutor has at most 100 sessions in one room. `NumberRoomsTeacherSum` counts the rooms a tutor uses. |
| StageTwoGuarantees.CapacityOverflowAtOptimum | timetabler/helpers.py:231-245 | At an optimum, each room's positive part at a timeslot equals `max(0, load - CAPACITIES[n])`. |
| StageTwoGuarantees.UntaughtProjectorSubjectUnbounded | timetabler/helpers.py:217-220 | A projector subject that no listed tutor teaches leaves its `ProjectorRooms` variable free under a negative weight, so no feasible allocation is optimal. |
| Materialise.AddClassesToTimetable | timetabler/models.py:813-831 | There is one record per (subject, timeslot, tutor, room) whose triple is a key of `classpop` and whose room variable is 1. Nothing is created for other triples. When no index list repeats an entry, each record is created once. |
| Materialise.AddSessionClasses | timetabler/models.py:817-831 | For one session, the room loop adds a record for every room its variable places it in, and only if the session is a key of `classpop`. |
| Materialise.CollectAttendees | timetabler/models.py:827-831 | A record's students are exactly the members of SUBJECTMAPPING[j] whose assignment is 1, in SUBJECTMAPPING order. |
| RecordGuarantees.RecordsWithinLimits | timetabler/helpers.py:88-91 | The records written after two successful stages lie in their tutor's availability and respect the class-size limits. |
| RecordGuarantees.RecordsNoRoomClash | timetabler/helpers.py:224-226 | No two records share a room at a timeslot. |
| RecordGuarantees.RecordsNoTutorClash | timetabler/helpers.py:132-134 | No tutor has two records at a timeslot. |
| RecordGuarantees.RecordsPlaceStudents | timetabler/helpers.py:95-98 | Every enrolled student of every tutor's subject is in some record of that subject and tutor. |
| RecordGuarantees.RecordsPlaceStudentsOnce | timetabler/helpers.py:95-98 | A student is in at most one record of a given subject and tutor. |
| RecordGuarantees.RecordsSound | timetabler/helpers.py:249-253 | The records written after two `Optimal` stages form a sound timetable: all five properties above hold. |
| Engine.RunTimetableTwoStep | timetabler/helpers.py:172-255 | The pipeline returns the stage-1 status whenever the materialiser's lookups succeed (see Left out). It writes no records unless both stages are `Optimal`. When both are, the records are exactly the materialised ones, and they form a sound timetable whenever the solver's reports are truthful. With duplicate-free index lists no record is written twice. |
| Crud.FirstMatch | timetabler/models.py:17-18 | `.first()` returns the earliest row that matches, or nothing exactly when no row matches. |
| Crud.FindOrAppend | timetabler/models.py:20-35 | `get_or_create` returns a matching row and leaves the rows unchanged when one exists. Otherwise it appends exactly one row; the rows only grow. |
| Crud.GetOrCreateIdempotent | timetabler/models.py:20-35 | A second `get_or_create` with the same arguments returns the same row and creates nothing. |
| Crud.Construct | timetabler/models.py:101-106 | A newly constructed row carries every keyword plus the current year and study period, so it satisfies its own query. |
| Crud.Updated | timetabler/models.py:37-46 | After `update`, every keyword attribute holds its new value and every other attribute its old one. |
| Crud.UpdateIdempotent | timetabler/models.py:37-46 | Updating twice with the same keywords equals updating once. |
| Crud.UpdateThenGet | timetabler/models.py:37-46 | After `update(**kw)` on a row of the current context, `get(**kw)` finds a row. |
| Crud.Table.GetOrCreate | timetabler/models.py:20-35 | The table method changes the rows exactly as `FindOrAppend` does. |
| Crud.Table.Update | timetabler/models.py:44-45 | The `setattr` loop changes the one row exactly as `Updated` does. |
| Entities.StudentAddSubject | timetabler/models.py:299-302 | Afterwards the student is enrolled in the subject and gains no other subject. A duplicate-free enrolment list stays duplicate-free. Nothing changes if they were already enrolled. |
| Entities.StudentAddSubjectEnrols | timetabler/models.py:299-302 | After `addSubject`, the student is among the subject's students. |
| Entities.TutorAddAvailableTime | timetabler/models.py:352-355 | Afterwards the timeslot is available and nothing else is added. A duplicate-free list stays duplicate-free. Nothing changes if it was already available. |
| Entities.TutorAddSubject | timetabler/models.py:357-361 | This fails exactly when no current subject has the code. Otherwise the subject is the tutor's afterwards, and only that subject's row changes. |
| Entities.LinkSubjectStudent | timetabler/models.py:655-661 | This fails exactly when the student or the subject is missing. Otherwise the roster is `Entities.StudentAddSubject` for that student and subject: the student is enrolled afterwards, and no other row changes. |
| Entities.UnlinkSubjectStudent | timetabler/models.py:469-474 | This fails exactly when the student or subject is missing or the student is not enrolled. Otherwise only that student's subject list changes: `list.remove` drops the subject's first occurrence there. |
| Entities.LinkThenUnlink | timetabler/models.py:655-661 | Linking a student to a subject they were not in and then unlinking gives back the same roster. |
| Entities.FindPossibleTimes | timetabler/models.py:258-272 | The removal loop returns the current timeslots, in order, minus every timeslot at which an enrolled student has a class. |
| Entities.RemoveClassTimes | timetabler/models.py:267-271 | Removing each class's timeslot in turn equals filtering out all of those timeslots at once. |
| Entities.BusyTimesMeaning | timetabler/models.py:265-271 | A timeslot is removed exactly when one of the given students has a class there. |
| Entities.PossibleTimesMeaning | timetabler/models.py:258-272 | A timeslot is offered exactly when it is current and no enrolled student has a class there. |
| Entities.RoomAvailableTimes | timetabler/models.py:418-423 | The result has no repeats and holds exactly the current timeslots at which no class is held in the room. |
| Entities.NumHours | timetabler/models.py:363-367 | The accumulating loop returns the sum of the repeats of the tutor's subjects. |
| Entities.HoursAfterAddSubject | timetabler/models.py:357-367 | Giving a tutor a subject they did not have adds its repeats to their hours; giving one they had changes nothing. |
| Entities.NumAvailableTimes | timetabler/models.py:369-370 | When no timeslot is listed twice, the count is the number of distinct available timeslots. |
| Entities.CreateUserWithTutor | timetabler/models.py:485-492 | Afterwards a user of that name exists in the context. If none existed, exactly one user is appended, with the username as password, and linked to the tutor. Only the users and that tutor's link change. Otherwise nothing changes. |
| Entities.CreateUserIdempotent | timetabler/models.py:485-492 | Creating the same user twice equals creating them once. |
| Entities.GenerateUserForTutor | timetabler/models.py:341-347 | This fails exactly where the username rule fails. Otherwise it is `Entities.CreateUserWithTutor` with the rule's username. So a login of that name exists afterwards, a new one is linked to the tutor with the username as password, and nothing else changes. |
| Entities.SetRoomProjector | timetabler/models.py:677-684 | Value 1 sets the room's projector flag, 0 clears it, and any other value leaves it. It fails exactly when the value is 0 or 1 and the room is missing (the source's `get` finds nothing). No other row changes. |
| Entities.RoomProjectorReachesEngine | timetabler/models.py:677-684 | Setting a current room succeeds. After 1, the room is among the aggregate's projector rooms; after 0, it is not among the rooms they are read from. |
| Entities.SetPreferredTimeslot | timetabler/models.py:958-964 | Value 1 marks the timeslot preferred and every other value marks it not preferred. It fails exactly when the timeslot is missing. No other row changes. |
| Entities.PreferredTimeslotReachesEngine | timetabler/models.py:958-964 | Marking a current slot succeeds. A current slot marked not preferred is among the aggregate's NONPREFERREDTIMES; one marked preferred is not among the slots they are read from. |
| Entities.DayNumeric | timetabler/models.py:445 | Returns the weekday's position in Monday..Sunday, or fails exactly for a day that is not a weekday name. |
| Entities.DayNumericOfWeekday | timetabler/models.py:445 | Every weekday's position leads back to that weekday. |
| Entities.NewTimeslot | timetabler/models.py:441-447 | This fails exactly for a non-weekday. Otherwise the timeslot's `daynumeric` names its day, and it belongs to the current timetable, year and study period. |
| Usernames.Split | timetabler/models.py:342 | `name.split(' ')` always gives at least one piece. |
| Usernames.SplitShape | timetabler/models.py:342 | No piece holds a space, and a name gives one piece exactly when it has no space. |
| Usernames.JoinSplit | timetabler/models.py:342 | Rejoining the pieces with single spaces gives the name back. |
| Usernames.SplitJoin | timetabler/models.py:342 | Splitting space-free pieces joined by single spaces gives the pieces back. |
| Usernames.Username | timetabler/models.py:342-346 | A name without a space is its own username. The rule fails (IndexError) only for a name that starts with a space. |
| Usernames.UsernameOfWords | timetabler/models.py:344 | A name of two or more words gives the first word's initial followed by the second word; later words are ignored. |
| Usernames.UsernameOfLeadingSpace | timetabler/models.py:344 | A name starting with a space has no username: the source raises IndexError on it. |
| FormHelpers.LastDot | timetabler/helpers.py:294 | Returns the position of the last dot of the file name; none exactly when the name has no dot. |
| FormHelpers.AllowedFile | timetabler/helpers.py:285-294 | An allowed name always has a dot. |
| FormHelpers.AllowedFileOf | timetabler/helpers.py:293-294 | A name ending in a dot and a dot-free extension is allowed exactly when the extension is xls, xlsx or csv, whatever the rest of the name holds. |
| FormHelpers.CheckboxValue | timetabler/helpers.py:316-328 | Gives 1 exactly for a ticked box and 0 exactly for an unticked one. |
| Handlers.MoveStudent | timetabler/views.py:1062-1076 | It fails exactly when the class or the student is missing (the source dereferences `None`), or when the student must move and the class's subject row is gone (the source reads `timetabledclasses` of `None`). Otherwise the student is afterwards in the target class. If they were not in it before, they are in no other class of its subject. Classes of other subjects and the rest of the roster are untouched. Nothing changes if they were already in it. |
| Handlers.MoveStudentKeepsNoDup | timetabler/views.py:1070-1074 | A successful move keeps every class free of repeated students. |
| Handlers.MoveStudentIdempotent | timetabler/views.py:1062-1076 | Moving a student into the same class twice equals moving them once, whenever the first move succeeds. |
| Handlers.Toggle | timetabler/views.py:1042-1045 | Only the given timeslot's membership changes. On a duplicate-free list it flips that membership and keeps the list duplicate-free. |
| Handlers.ToggleTwice | timetabler/views.py:1042-1045 | Toggling twice restores the set of available timeslots. For a timeslot that was absent, it restores the very same list. |
| Handlers.ToggleAvailability | timetabler/views.py:1035-1047 | It fails exactly when the tutor or the timeslot is missing. Otherwise only the tutor's availability changes, by the toggle. |
| Handlers.AdminFlag | timetabler/views.py:1008-1016 | Value 1 makes anyone an admin. Value 0 demotes an admin other than the user named `admin`. Every other request leaves the flag, so `admin` can never be demoted. |
| Handlers.AdminFlagIdempotent | timetabler/views.py:1008-1016 | The same request twice leaves the flag as once. |
| Handlers.SetAdmin | timetabler/views.py:1003-1018 | It fails exactly when the user is missing. Otherwise only that user's admin flag changes, as `AdminFlag` says. |
| Handlers.FillSingleClass | timetabler/views.py:207-209 | A subject with exactly one class has all its enrolled students placed in that class and no other class changes. A subject with any other number of classes is left alone. |
| Handlers.FillSingleClassIdempotent | timetabler/views.py:362-366 | Applying the single-class rule again changes nothing. |
| Handlers.AddTimetabledClass | timetabler/views.py:199-210 | This fails exactly when the subject or timeslot is missing or the subject has no tutor. Otherwise a class of the subject exists at the timeslot with its tutor; if it is the subject's only class, it holds all the subject's students. One class is appended exactly when none matched, and no more. Every other class, and every other table, is unchanged. |
| Handlers.AddTimetabledClassIdempotent | timetabler/views.py:199-210 | Adding the same class twice equals adding it once. |
| Handlers.RemoveTimetabledClass | timetabler/views.py:355-367 | It fails exactly when the class is missing. Otherwise the class is gone and no other table changes. If one class of its subject is left, that class holds all the subject's students and no other class changes. When the subject row is gone, only the deletion happens: the source commits it and then fails on the `None` subject. |
| Handlers.EligibleSubjects | timetabler/views.py:843-860 | The eligible subjects, without repeats, are exactly the current subjects with no tutor and at least three enrolled students. |
| Handlers.EligibleAndMapped | timetabler/views.py:864-877 | "Eligible Subjects" counts `Handlers.EligibleSubjects`, and "Mapped Subjects" counts exactly the current subjects with a tutor. Eligible plus mapped never exceeds the current subjects. |
| Handlers.UnmappedAndMapped | timetabler/views.py:867-872 | The current subjects split into those without a tutor and those with one. |
| Handlers.SetNeedsProjector | timetabler/views.py:931-942 | Value 1 sets the subject's flag, 0 clears it, and any other value leaves it. It fails exactly when the value is 0 or 1 and the subject is missing. No other row changes. |
| Handlers.NeedsProjectorReachesEngine | timetabler/views.py:936-938 | Flagging a current tutored subject with 1 succeeds, and the subject is among the aggregate's PROJECTORS. |
| Handlers.SetPreferredTime | timetabler/views.py:944-953 | Value 1 marks the timeslot preferred, 0 not preferred, and any other value leaves it. It fails exactly when the value is 0 or 1 and the timeslot is missing. |
| Handlers.PreferredHandlersCompared | timetabler/views.py:944-953 | The two preferred-time handlers agree on 0 and 1. On any other value, `change_preferred_time` leaves the timeslot alone while `change_preferred_timeslot` marks an existing timeslot not preferred. |
| ClashReport.CollectClass | timetabler/views.py:889-899 | After one class, each student met holds the subject names collected so far, and `clashstudents` holds exactly the students with two or more. |
| ClashReport.CollectTimeslot | timetabler/views.py:885-901 | A timeslot's report lists a student exactly when their entry has two or more subject names, each student once, with their entry of one subject name per class that lists them. |
| ClashReport.TimeslotRowsMeaning | timetabler/views.py:903-908 | A timeslot's rows are exactly its clashes, each once. |
| ClashReport.ClashRows | timetabler/views.py:880-921 | The report's rows are exactly the clashes at the current timeslots, each once. |
| ClashReport.EntriesCountClasses | timetabler/views.py:889-897 | When no class lists a student twice, a student's entry has one name per class of the timeslot that lists them. So they are reported exactly when two or more classes there list them. |
| Store.Store.StudentAddSubject | timetabler/models.py:299-302 | The store afterwards is `Entities.StudentAddSubject` of the store before. |
| Store.Store.TutorAddAvailableTime | timetabler/models.py:352-355 | The store afterwards is `Entities.TutorAddAvailableTime` of the store before. |
| Store.Store.TutorAddSubject | timetabler/models.py:357-361 | Reports failure exactly where the source fails, and then leaves the store unchanged. Otherwise the store becomes `Entities.TutorAddSubject`'s result. |
| Store.Store.LinkSubjectStudent | timetabler/models.py:655-661 | Same shape as above, for `linksubjectstudent`. |
| Store.Store.UnlinkSubjectStudent | timetabler/models.py:469-474 | Same shape as above, for `unlinksubjectstudent`. |
| Store.Store.GenerateUserForTutor | timetabler/models.py:341-347 | Same shape as above, for login generation. |
| Store.Store.SetRoomProjector | timetabler/views.py:956-967 | `update_room_projector`, like `change_room_projector`, applies the 0/1 rule to a room found by id. The method reports failure exactly where `Entities.SetRoomProjector` fails, and then leaves the store unchanged. Otherwise the store afterwards is that function's result. |
| Store.Store.SetPreferredTimeslot | timetabler/models.py:958-964 | It reports failure exactly where `Entities.SetPreferredTimeslot` fails, and then leaves the store unchanged. Otherwise the store afterwards is that function's result. |
| Store.Store.MoveStudent | timetabler/views.py:1062-1076 | The in-place loop over the subject's classes, then the append, leaves the store as `Handlers.MoveStudent` says. It reports failure exactly where that function fails, and then leaves the store unchanged. |
| Store.Store.ToggleAvailability | timetabler/views.py:1035-1047 | It reports failure exactly where `Handlers.ToggleAvailability` fails, and then leaves the store unchanged. Otherwise the store afterwards is that function's result. |
| Store.Store.SetAdmin | timetabler/views.py:1003-1018 | It reports failure exactly where `Handlers.SetAdmin` fails, and then leaves the store unchanged. Otherwise the store afterwards is that function's result. |
| Store.Store.SetNeedsProjector | timetabler/views.py:931-942 | It reports failure exactly where `Handlers.SetNeedsProjector` fails, and then leaves the store unchanged. Otherwise the store afterwards is that function's result. |
| Store.Store.SetPreferredTime | timetabler/views.py:944-953 | It reports failure exactly where `Handlers.SetPreferredTime` fails, and then leaves the store unchanged. Otherwise the store afterwards is that function's result. |
| Store.Store.FillSingleClass | timetabler/views.py:362-366 | The store afterwards is `Handlers.FillSingleClass` of the store before. |
| Store.Store.AddTimetabledClass | timetabler/views.py:199-210 | Reports failure exactly where the source fails, and then leaves the store unchanged. Otherwise the store becomes `Handlers.AddTimetabledClass`'s result. |
| Store.Store.RemoveTimetabledClass | timetabler/views.py:355-367 | It reports failure exactly where the source fails: the class is missing, or its subject row is gone. A missing class leaves the store unchanged. Otherwise the store afterwards is `Handlers.RemoveTimetabledClass` of the store before, which for a missing subject row is the deletion alone. |
| Seqs.RemoveFirst | timetabler/models.py:473 | `list.remove` drops the first occurrence of a present element and keeps the rest in order. It leaves a list without that element as it is. |
| Seqs.RemoveFirstAppended | timetabler/views.py:1043-1045 | Removing what was just appended gives the list back. |
| Seqs.Dedup | timetabler/models.py:733 | `list(set(xs))` has no repeats and holds exactly the elements of `xs`. |
| Seqs.AddIfAbsent | timetabler/models.py:300-301 | The list afterwards holds the element and nothing else new; it is unchanged if the element was there. |
| Seqs.IndexOf | timetabler/models.py:445 | `list.index` gives the first position of the element, and fails exactly when the element is absent. |
| Seqs.Without | timetabler/models.py:423 | The comprehension keeps exactly the elements not in the removed set, and keeps a duplicate-free list duplicate-free. |
| Seqs.TabulateFrom | timetabler/models.py:721-722 | Every key of a dictionary filled in a loop was written by some element, whose value it holds. |
| Seqs.TabulateLast | timetabler/models.py:721-722 | In a dictionary filled in a loop, the last element written under a key gives its value. |

## Left out

- The CBC solver (helpers.py:168, 247) is not modelled. A solve is an oracle: its status is a parameter, and an `Optimal` report is assumed to carry a feasible valuation of least objective. Solver failures, time limits and floating-point `varValue`s are outside the model; variable values are integers, and a test `varValue == 1` is exact.
- The coefficients 0.1, 0.3, 0.5 and 0.01 are multiplied out to integer constraints. The `Scaling` lemmas show these are equivalent to the real-valued forms.
- The continuous stage-2 variables (`NumberRoomsTeacherSum`, `ProjectorRooms`, `PopulationOvershoot`, `PopulationPositivePart`) are modelled as integers. Each is fixed by, or bounded by, integer expressions.
- Python set iteration order is not modelled. `list(set(...))` keeps first occurrences (`Seqs.Dedup`), and the sets inside SUBJECTMAPPING, TEACHERMAPPING and DAYS are duplicate-free lists. No stated property depends on their order.
- Relationship backrefs (`subject.students`, `tutor.subjects`, `timeslot.timetabledclasses`, …) list ids in id order. The ORM's own order is not modelled. For the same reason `Crud.FirstMatch` takes the matching row of lowest id, where `.first()` without `order_by` has no defined order.
- `get_current_year`, `get_current_studyperiod` and `get_current_timetable` (models.py:619-652) are replaced by an explicit `Context` parameter.
- The rooms=False branch of `get_timetable_data` (models.py:781-783), which returns 13 values, is not modelled: the two-step engine only uses the 18-value branch.
- Database sessions, commits and rollbacks are not modelled; edits take effect at once on the value. Deleted classes leave an empty slot so that ids stay stable.
- Flask routing, templates, redirects and permissions are not modelled, nor are the JSON serialisation of the ajax handlers and the download, roll, Excel/CSV import/export and `populate_*` functions. These are I/O.
- `preparetimetable` and its `executor.submit` background dispatch are left out as concurrency.
- Password hashing and the login/identity machinery are foreign libraries and are left out. A user created by `create_user_with_tutor` records its password as given.
- `check_time` is not modelled: as written its conversions call `strptime` on `datetime.time`, which has none.
- `add_classes_to_timetable` (the single-stage materialiser, models.py:786-807) is not modelled: nothing in the two-step path calls it.
- `linksubjecttutor`, `unlinksubjecttutor` and the other handlers not listed above (subject repeats, tutor-user mapping, class-room update) are outside the modelled core.
- Clash report ordering and layout are not modelled: the order of rows across timeslots and the per-timeslot `time` key are omitted. `ClashReport.ClashRows` states which rows appear and that each appears once.
- Materialise.AddClassesToTimetable: two current timeslots with the same day and time, or two rooms with the same name, give TIMES or ROOMS a repeated entry. The loop then creates the same record more than once. The source does not prevent this, so the no-repeat result holds only under `Distinct`.
- Materialise.AddClassesToTimetable: the ORM lookups of models.py:815-830 are replaced by the names they look up. Two behaviours of the source are lost. First, a key of TIMES is split on spaces and only the first two pieces are looked up (models.py:819-820). So a day or time containing a space (a time "7:30 pm") finds no timeslot, and `timeslot.id` raises AttributeError. This happens for every session key in `classpop` at that slot, whatever its room variable; records committed before it stay. Second, `Subject.get`, `Tutor.get`, `Student.get` and `Room.query...first()` return the first row of a name. So where two rows share a code or name, a record may point at the other row. The model writes every record `IsRecordOf` describes, under names.
- Materialise.AddSessionClasses: the same two behaviours are not modelled for one session. Its timeslot lookup by the split key can raise, and its subject, tutor, room and student lookups resolve a shared name to the first row.
- Engine.RunTimetableTwoStep: where the materialiser's timeslot lookup raises (above), the source writes only part of the records and returns no status. The model returns the stage-1 status and all the records; it assumes every lookup succeeds and resolves to the row the name came from.
- ClashReport.SubjectTitle: gives the empty title for a class whose subject is missing, where the source raises AttributeError on `None.subname`.
- Handlers.MoveStudent: the contract says the student is in no other class of the subject only when no class lists a student twice beforehand. `list.remove` drops one occurrence, so with a duplicated listing the source can leave one behind.
- Aggregator.AggregateTaughtKnown and Aggregator.AggregateWellFormed: both require that every subject of a listed tutor is current (`TutorsTeachOnlyCurrent`). The source does not check this; where it fails, the engine raises KeyError at helpers.py:46.
- Entities.NumAvailableTimes: counts distinct timeslots only when no timeslot is listed twice. `addAvailableTime` and the availability toggle keep that true, but the source's `len` counts list entries.
- FormHelpers.AllowedFile: its own contract states only that an allowed name has a dot. The full rule, an allowed extension after the last dot, is stated by `FormHelpers.AllowedFileOf`.
- `numroomsprojector` is `len(PROJECTORROOMS)` by definition of the aggregate, and needs no separate lemma.
