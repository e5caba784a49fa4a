/** The two-stage pipeline of `runtimetable_with_rooms_two_step` (timetabler/helpers.py:14-255).

    The CBC solver is not modelled: the outcome of the stage-1 solve is a parameter, and the
    stage-2 solve is a function of the `classpop` it is given. What the solver promises when it
    reports `Optimal` is the pair of predicates `SolvesStageOne` / `SolvesStageTwo`. */
module Engine {
  import opened Seqs
  import opened TimetableData
  import StageOne
  import opened ClassPopulation
  import opened StageTwo
  import opened Materialise
  import opened RecordGuarantees

  /** The values of PuLP's `LpStatus` (helpers.py:170, 179, 249). */
  datatype Status = Optimal | NotSolved | Infeasible | Unbounded | Undefined

  /** A solver run: the status it reports and the variable values it leaves behind. */
  datatype Outcome<V> = Outcome(status: Status, values: V)

  /** A stage-1 `Optimal` report comes with a minimal feasible valuation. */
  ghost predicate SolvesStageOne(d: TimetableData, stage1: Outcome<StageOne.Stage1Values>) {
    stage1.status == Optimal ==> StageOne.Optimal(d, stage1.values)
  }

  /** A stage-2 `Optimal` report, for the classpop of the stage-1 values, comes with a
      minimal feasible room allocation. */
  ghost predicate SolvesStageTwo(d: TimetableData, stage1: Outcome<StageOne.Stage1Values>, solveRooms: Classpop -> Outcome<Stage2Values>) {
    var classpop := ClassPopulationOf(d, stage1.values);
    solveRooms(classpop).status == Optimal ==> Optimal2(d, stage1.values.scheduled, classpop, solveRooms(classpop).values)
  }

  /** Both stages come back `Optimal`: the condition for writing records (helpers.py:179, 249). */
  predicate BothOptimal(d: TimetableData, stage1: Outcome<StageOne.Stage1Values>, solveRooms: Classpop -> Outcome<Stage2Values>) {
    stage1.status == Optimal && solveRooms(ClassPopulationOf(d, stage1.values)).status == Optimal
  }

  /** The pipeline: extract classpop, and only when stage 1 is `Optimal` solve stage 2, and
      only when that is `Optimal` too create the records. The stage-1 status is returned
      whatever stage 2 does. */
  method RunTimetableTwoStep(d: TimetableData, timetable: int, stage1: Outcome<StageOne.Stage1Values>, solveRooms: Classpop -> Outcome<Stage2Values>)
    returns (status: Status, records: seq<ClassRecord>)
    ensures status == stage1.status
    ensures !BothOptimal(d, stage1, solveRooms) ==> records == []
    ensures BothOptimal(d, stage1, solveRooms) ==>
      var classpop := ClassPopulationOf(d, stage1.values);
      forall r :: r in records <==> IsRecordOf(d, classpop, solveRooms(classpop).values.room, stage1.values.assign, timetable, r)
    ensures BothOptimal(d, stage1, solveRooms) && SolvesStageOne(d, stage1) && SolvesStageTwo(d, stage1, solveRooms) ==>
      TimetableSound(d, records)
    ensures Distinct(d) ==> NoDup(records)
  {
    var classpop := ExtractClassPopulation(d, stage1.values);
    records := [];
    if stage1.status == Optimal {
      var stage2 := solveRooms(classpop);
      if stage2.status == Optimal {
        records := AddClassesToTimetable(d, classpop, stage2.values.room, stage1.values.assign, timetable);
        if SolvesStageOne(d, stage1) && SolvesStageTwo(d, stage1, solveRooms) {
          RecordsSound(d, stage1.values, stage2.values, timetable, records);
        }
      }
    }
    status := stage1.status;
  }
}
