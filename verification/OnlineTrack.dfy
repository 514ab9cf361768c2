/**
 The online migration track: scripts/_lib/online-track.ts, driven over the scripts of one
 tenant by scripts/tenant-online.ts.

 `Next` is one database statement of the runner, so a process can stop between any two of
 them. A run of the track is a list of actions: statements, and crashes or failures that
 throw away everything but the database. `RunOnlineScript` is the runner as the source
 writes it, proved to perform exactly those statements.
 */
module OnlineTrack {
  import opened Basics

  /** A step is what its SQL does to the data, with the number of rows it reports. */
  datatype Step<!D> = Step(name: string, run: D -> (D, nat), repeatUntilZero: bool)
  datatype Script<!D> = Script(name: string, steps: seq<Step<D>>)

  /** One row of `_libriant_online_migrations`. */
  datatype Row = Row(finished: bool, cursor: Option<string>, attempts: nat, rowsDone: nat, failed: bool)

  /** A tenant database: its data, the ledger, and `onlinePending`. */
  datatype Db<D> = Db(data: D, ledger: map<string, Row>, barrier: Option<string>)

  // ---------------------------------------------------------------- one statement

  datatype Pc =
    | Begin
    | Raise(cursor: Option<string>)
    | At(k: nat, pass: nat)
    | Counted(k: nat, pass: nat, rows: nat)
    | Mark(k: nat)
    | Finish
    | Lower

  /**
   What an observer sees: the SQL of step `k` of script `i` ran, or was recorded as complete, or
   the barrier of script `i` was lowered.
   */
  datatype Event = Ran(i: nat, k: nat, rows: nat) | Marked(i: nat, k: nat) | Lowered(i: nat)

  /** The database, and the process working on script `i`. */
  datatype Machine<D> = Machine(db: Db<D>, i: nat, pc: Pc, log: seq<Event>)

  function SetRow<D>(db: Db<D>, name: string, row: Row): Db<D> {
    db.(ledger := db.ledger[name := row])
  }

  function RowOf<D>(db: Db<D>, name: string): Row {
    if name in db.ledger then db.ledger[name] else Row(false, None, 0, 0, false)
  }

  /** Where a resumed loop starts: just after the step the cursor names, or past the end. */
  function ResumeAt<D>(steps: seq<Step<D>>, cursor: Option<string>): (k: nat)
    ensures k <= |steps|
    ensures cursor.None? ==> k == 0
    ensures cursor.Some? && k < |steps| ==> k > 0 && steps[k - 1].name == cursor.value
  {
    if cursor.None? then 0 else SkipTo(steps, cursor.value)
  }

  function SkipTo<D>(steps: seq<Step<D>>, name: string): (k: nat)
    ensures k <= |steps|
    ensures k < |steps| ==> k > 0 && steps[k - 1].name == name
  {
    if steps == [] then 0
    else if steps[0].name == name then 1
    else
      var k := SkipTo(steps[1..], name);
      k + 1
  }

  function Enter<D>(steps: seq<Step<D>>, maxPasses: nat, k: nat): Pc {
    if k >= |steps| then Finish
    else if steps[k].repeatUntilZero && maxPasses == 0 then Mark(k)
    else At(k, 1)
  }

  /** One statement of the runner. */
  function Next<D>(scripts: seq<Script<D>>, maxPasses: nat, m: Machine<D>): Machine<D> {
    if m.i >= |scripts| then m
    else
      var script := scripts[m.i];
      var row := RowOf(m.db, script.name);
      match m.pc
      case Begin =>
        if script.name in m.db.ledger && row.finished then m.(i := m.i + 1)
        else
          m.(db := SetRow(m.db, script.name, row.(attempts := row.attempts + 1, failed := false)),
             pc := Raise(row.cursor))
      case Raise(cursor) =>
        m.(db := m.db.(barrier := Some(script.name)),
           pc := Enter(script.steps, maxPasses, ResumeAt(script.steps, cursor)))
      case At(k, pass) =>
        if k >= |script.steps| then m
        else
          var (data, n) := script.steps[k].run(m.db.data);
          m.(db := m.db.(data := data),
             log := m.log + [Ran(m.i, k, n)],
             pc := if script.steps[k].repeatUntilZero then Counted(k, pass, n) else Mark(k))
      case Counted(k, pass, n) =>
        m.(db := SetRow(m.db, script.name, row.(rowsDone := row.rowsDone + n)),
           pc := if n == 0 || pass >= maxPasses then Mark(k) else At(k, pass + 1))
      case Mark(k) =>
        if k >= |script.steps| then m
        else
          m.(db := SetRow(m.db, script.name, row.(cursor := Some(script.steps[k].name))),
             log := m.log + [Marked(m.i, k)],
             pc := Enter(script.steps, maxPasses, k + 1))
      case Finish =>
        m.(db := SetRow(m.db, script.name, row.(finished := true, failed := false)), pc := Lower)
      case Lower =>
        m.(db := m.db.(barrier := None), log := m.log + [Lowered(m.i)], i := m.i + 1, pc := Begin)
  }

  /** A statement completes, or the process stops before it; a caught error may be recorded. */
  datatype Action = Statement | Stop(recorded: bool)

  function Stopped<D>(scripts: seq<Script<D>>, m: Machine<D>, recorded: bool): Db<D> {
    if recorded && m.i < |scripts| && (m.pc.At? || m.pc.Counted? || m.pc.Mark?) then
      SetRow(m.db, scripts[m.i].name, RowOf(m.db, scripts[m.i].name).(failed := true))
    else m.db
  }

  function Act<D>(scripts: seq<Script<D>>, maxPasses: nat, m: Machine<D>, a: Action): Machine<D> {
    match a
    case Statement => Next(scripts, maxPasses, m)
    case Stop(recorded) => Machine(Stopped(scripts, m, recorded), 0, Begin, m.log)
  }

  function Play<D>(scripts: seq<Script<D>>, maxPasses: nat, m: Machine<D>, actions: seq<Action>): Machine<D>
    decreases |actions|
  {
    if actions == [] then m
    else Act(scripts, maxPasses, Play(scripts, maxPasses, m, actions[..|actions| - 1]), actions[|actions| - 1])
  }

  function Fresh<D>(data: D): Machine<D> {
    Machine(Db(data, map[], None), 0, Begin, [])
  }

  ghost predicate DistinctSteps<D(!new)>(steps: seq<Step<D>>) {
    forall j, k :: 0 <= j < k < |steps| ==> steps[j].name != steps[k].name
  }

  ghost predicate Distinct<D(!new)>(scripts: seq<Script<D>>) {
    && (forall i :: 0 <= i < |scripts| ==> DistinctSteps(scripts[i].steps))
    && (forall i, j :: 0 <= i < j < |scripts| ==> scripts[i].name != scripts[j].name)
  }

  // ---------------------------------------------------------------- one uninterrupted run

  /** Passes of a repeated step until one reports no rows, at most `passes` of them. */
  function Drain<D>(step: Step<D>, passes: nat, data: D): D {
    if passes == 0 then data
    else
      var (data', n) := step.run(data);
      if n == 0 then data' else Drain(step, passes - 1, data')
  }

  function CleanStep<D>(step: Step<D>, maxPasses: nat, data: D): D {
    if step.repeatUntilZero then Drain(step, maxPasses, data) else step.run(data).0
  }

  /** The data after `k` steps of script `j` in one run that is never interrupted. */
  function CleanAt<D>(scripts: seq<Script<D>>, maxPasses: nat, data: D, j: nat, k: nat): D
    requires j <= |scripts| && k <= if j < |scripts| then |scripts[j].steps| else 0
    decreases j, k
  {
    if k > 0 then CleanStep(scripts[j].steps[k - 1], maxPasses, CleanAt(scripts, maxPasses, data, j, k - 1))
    else if j > 0 then CleanAt(scripts, maxPasses, data, j - 1, |scripts[j - 1].steps|)
    else data
  }

  /** From `data`, some pass among the first `passes` + 1 would report no rows, and such a pass changes nothing. */
  ghost predicate Settles<D>(step: Step<D>, passes: nat, data: D)
    decreases passes
  {
    if step.run(data).1 == 0 then step.run(data).0 == data
    else passes > 0 && Settles(step, passes - 1, step.run(data).0)
  }

  /** What the author of a step owes the runner, at the data the step meets. */
  ghost predicate Owed<D>(step: Step<D>, maxPasses: nat, data: D) {
    if step.repeatUntilZero then Settles(step, maxPasses, data)
    else step.run(step.run(data).0).0 == step.run(data).0
  }

  ghost predicate WellWritten<D(!new)>(scripts: seq<Script<D>>, maxPasses: nat, data: D) {
    forall j, k :: 0 <= j < |scripts| && 0 <= k < |scripts[j].steps| ==>
      Owed(scripts[j].steps[k], maxPasses, CleanAt(scripts, maxPasses, data, j, k))
  }

  /** The data after `n` executions of the step's SQL. */
  function Again<D>(step: Step<D>, n: nat, data: D): D {
    if n == 0 then data else Again(step, n - 1, step.run(data).0)
  }

  /** However often the step was executed before and not recorded, completing it gives the same. */
  ghost predicate Steady<D(!new)>(step: Step<D>, maxPasses: nat, data: D) {
    (step.repeatUntilZero && maxPasses == 0)
    || forall n: nat :: CleanStep(step, maxPasses, Again(step, n, data)) == CleanStep(step, maxPasses, data)
  }

  /** Every step is steady at the data an uninterrupted run has there. */
  ghost predicate Robust<D(!new)>(scripts: seq<Script<D>>, maxPasses: nat, data: D) {
    forall j, k :: 0 <= j < |scripts| && 0 <= k < |scripts[j].steps| ==>
      Steady(scripts[j].steps[k], maxPasses, CleanAt(scripts, maxPasses, data, j, k))
  }

  // ---------------------------------------------------------------- small laws of steps

  /** A steady step is steady after one more execution, with the same outcome. */
  lemma {:induction false} SteadyAgain<D(!new)>(step: Step<D>, maxPasses: nat, data: D)
    requires Steady(step, maxPasses, data) && (step.repeatUntilZero ==> maxPasses > 0)
    ensures Steady(step, maxPasses, step.run(data).0)
    ensures CleanStep(step, maxPasses, step.run(data).0) == CleanStep(step, maxPasses, data)
  {
    var once := step.run(data).0;
    assert Again(step, 1, data) == Again(step, 0, once) == once;
    forall n: nat
      ensures CleanStep(step, maxPasses, Again(step, n, once)) == CleanStep(step, maxPasses, once)
    {
      assert Again(step, n + 1, data) == Again(step, n, once);
    }
  }

  /** Idempotent plain steps, and repeated steps that settle, are steady. */
  lemma {:induction false} OwedIsSteady<D(!new)>(step: Step<D>, maxPasses: nat, data: D)
    requires Owed(step, maxPasses, data)
    ensures Steady(step, maxPasses, data)
  {
    if !(step.repeatUntilZero && maxPasses == 0) {
      forall n: nat
        ensures CleanStep(step, maxPasses, Again(step, n, data)) == CleanStep(step, maxPasses, data)
      {
        OwedAgain(step, maxPasses, n, data);
      }
    }
  }

  lemma {:induction false} OwedAgain<D(!new)>(step: Step<D>, maxPasses: nat, n: nat, data: D)
    requires Owed(step, maxPasses, data) && (step.repeatUntilZero ==> maxPasses > 0)
    ensures CleanStep(step, maxPasses, Again(step, n, data)) == CleanStep(step, maxPasses, data)
    decreases n
  {
    if n > 0 {
      StepAgain(step, maxPasses, data);
      OwedAgain(step, maxPasses, n - 1, step.run(data).0);
    }
  }

  lemma {:induction false} WellWrittenIsRobust<D(!new)>(scripts: seq<Script<D>>, maxPasses: nat, start: D)
    requires WellWritten(scripts, maxPasses, start)
    ensures Robust(scripts, maxPasses, start)
  {
    forall j, k | 0 <= j < |scripts| && 0 <= k < |scripts[j].steps|
      ensures Steady(scripts[j].steps[k], maxPasses, CleanAt(scripts, maxPasses, start, j, k))
    {
      OwedIsSteady(scripts[j].steps[k], maxPasses, CleanAt(scripts, maxPasses, start, j, k));
    }
  }

  lemma {:induction false} SettlesMore<D(!new)>(step: Step<D>, p: nat, q: nat, data: D)
    requires Settles(step, p, data) && p <= q
    ensures Settles(step, q, data) && Drain(step, q, data) == Drain(step, p, data)
    decreases p
  {
    if step.run(data).1 != 0 {
      SettlesMore(step, p - 1, q - 1, step.run(data).0);
    }
  }

  /** A step that is owed at `data` is owed after one execution, with the same outcome. */
  lemma {:induction false} StepAgain<D(!new)>(step: Step<D>, maxPasses: nat, data: D)
    requires Owed(step, maxPasses, data)
    requires step.repeatUntilZero ==> maxPasses > 0
    ensures Owed(step, maxPasses, step.run(data).0)
    ensures CleanStep(step, maxPasses, step.run(data).0) == CleanStep(step, maxPasses, data)
  {
    if step.repeatUntilZero && step.run(data).1 != 0 {
      SettlesMore(step, maxPasses - 1, maxPasses, step.run(data).0);
    }
  }

  lemma {:induction false} SkipToFinds<D(!new)>(steps: seq<Step<D>>, k: nat)
    requires DistinctSteps(steps) && k < |steps|
    ensures SkipTo(steps, steps[k].name) == k + 1
  {
    if k > 0 {
      assert steps[1..][k - 1] == steps[k];
      SkipToFinds(steps[1..], k - 1);
    }
  }

  // ---------------------------------------------------------------- the invariant

  /** How far the ledger says script `i` is: the number of its steps recorded as complete. */
  function Recorded<D>(scripts: seq<Script<D>>, db: Db<D>, i: nat): nat
    requires i < |scripts|
  {
    ResumeAt(scripts[i].steps, RowOf(db, scripts[i].name).cursor)
  }

  /** A cursor, if any, names a step of the script. */
  ghost predicate CursorKnown<D(!new)>(steps: seq<Step<D>>, cursor: Option<string>) {
    cursor.Some? ==> exists k :: 0 <= k < |steps| && steps[k].name == cursor.value
  }

  /** Scripts before `j` are finished, scripts after it untouched, script `j` is unfinished. */
  ghost predicate Ledger<D(!new)>(scripts: seq<Script<D>>, db: Db<D>, j: nat) {
    && j <= |scripts|
    && (forall i :: 0 <= i < j ==> scripts[i].name in db.ledger && db.ledger[scripts[i].name].finished)
    && (forall i :: j < i < |scripts| ==> scripts[i].name !in db.ledger)
    && (j < |scripts| ==>
          && !RowOf(db, scripts[j].name).finished
          && CursorKnown(scripts[j].steps, RowOf(db, scripts[j].name).cursor))
  }

  /** Every step before the recorded one has its `Marked` event, every execution came in its turn. */
  ghost predicate Log<D(!new)>(scripts: seq<Script<D>>, db: Db<D>, j: nat, log: seq<Event>)
    requires j <= |scripts|
  {
    && (forall i, k :: 0 <= i < j && 0 <= k < |scripts[i].steps| ==> Marked(i, k) in log)
    && (j < |scripts| ==> forall k :: 0 <= k < Recorded(scripts, db, j) ==> Marked(j, k) in log)
    && (forall e :: e in log ==> e.i <= j)
    && InTurn(scripts, log)
  }

  /** No execution precedes the record of an earlier step of its script, or of an earlier script. */
  ghost predicate InTurn<D(!new)>(scripts: seq<Script<D>>, log: seq<Event>) {
    forall p :: 0 <= p < |log| && log[p].Ran? ==> EarlierStepsMarked(scripts, log[..p], log[p].i, log[p].k)
  }

  ghost predicate EarlierStepsMarked<D(!new)>(scripts: seq<Script<D>>, log: seq<Event>, i: nat, k: nat) {
    && i < |scripts| && k < |scripts[i].steps|
    && (forall k' :: 0 <= k' < k ==> Marked(i, k') in log)
    && (forall i', k' :: 0 <= i' < i && 0 <= k' < |scripts[i'].steps| ==> Marked(i', k') in log)
  }

  /** The data carries the recorded steps, and what is left to do leads where a clean run leads. */
  ghost predicate OnCourse<D(!new)>(scripts: seq<Script<D>>, maxPasses: nat, start: D, db: Db<D>, j: nat)
    requires j <= |scripts|
  {
    if j == |scripts| then db.data == CleanAt(scripts, maxPasses, start, j, 0)
    else
      var k := Recorded(scripts, db, j);
      var clean := CleanAt(scripts, maxPasses, start, j, k);
      (scripts[j].name !in db.ledger ==> db.data == clean) &&
      if k == |scripts[j].steps| then db.data == clean
      else
        var step := scripts[j].steps[k];
        Steady(step, maxPasses, db.data) && CleanStep(step, maxPasses, db.data) == CleanStep(step, maxPasses, clean)
  }

  /** The barrier is up from the first executed step of script `j` until it is finished. */
  ghost predicate BarrierUp<D(!new)>(scripts: seq<Script<D>>, db: Db<D>, j: nat, log: seq<Event>) {
    j < |scripts| ==> ((exists k, n :: Ran(j, k, n) in log) || Recorded(scripts, db, j) > 0) ==>
      db.barrier == Some(scripts[j].name)
  }

  /** Barriers are lowered after the end is on record, and after the last one nothing raises it again. */
  ghost predicate LastLowered<D(!new)>(scripts: seq<Script<D>>, db: Db<D>, j: nat, log: seq<Event>) {
    && (forall i: nat :: Lowered(i) in log ==> i < j)
    && (j == |scripts| && j > 0 ==> (db.barrier == None <==> Lowered(j - 1) in log))
  }

  /** The process stands where the ledger lets it stand. */
  ghost predicate AtPlace<D(!new)>(scripts: seq<Script<D>>, m: Machine<D>, j: nat) {
    match m.pc
    case Begin => m.i <= j
    case Lower => m.i < |scripts| && m.i + 1 == j && m.db.barrier == Some(scripts[m.i].name)
    case Raise(cursor) =>
      && m.i == j < |scripts| && scripts[j].name in m.db.ledger
      && cursor == RowOf(m.db, scripts[j].name).cursor
    case At(k, _) => AtStep(scripts, m, j, k)
    case Counted(k, _, _) => AtStep(scripts, m, j, k) && scripts[j].steps[k].repeatUntilZero
    case Mark(k) => AtStep(scripts, m, j, k)
    case Finish => Working(scripts, m, j) && Recorded(scripts, m.db, j) == |scripts[j].steps|
  }

  ghost predicate Working<D(!new)>(scripts: seq<Script<D>>, m: Machine<D>, j: nat) {
    m.i == j < |scripts| && scripts[j].name in m.db.ledger && m.db.barrier == Some(scripts[j].name)
  }

  ghost predicate AtStep<D(!new)>(scripts: seq<Script<D>>, m: Machine<D>, j: nat, k: nat) {
    Working(scripts, m, j) && k == Recorded(scripts, m.db, j) < |scripts[j].steps|
  }

  /** Inside a step: the passes left are enough, and once it is to be recorded the data is the clean one. */
  ghost predicate InStep<D(!new)>(scripts: seq<Script<D>>, maxPasses: nat, start: D, m: Machine<D>, j: nat)
    requires AtPlace(scripts, m, j)
  {
    match m.pc
    case At(k, pass) =>
      scripts[j].steps[k].repeatUntilZero ==>
        Leads(scripts[j].steps[k], maxPasses, m.db.data, pass, CleanAt(scripts, maxPasses, start, j, k + 1))
    case Counted(k, pass, n) =>
      if n == 0 || pass >= maxPasses then m.db.data == CleanAt(scripts, maxPasses, start, j, k + 1)
      else Leads(scripts[j].steps[k], maxPasses, m.db.data, pass + 1, CleanAt(scripts, maxPasses, start, j, k + 1))
    case Mark(k) => m.db.data == CleanAt(scripts, maxPasses, start, j, k + 1)
    case _ => true
  }

  /** A pass numbered `pass` is about to run, and the passes left lead to the clean data. */
  ghost predicate Leads<D(!new)>(step: Step<D>, maxPasses: nat, data: D, pass: nat, clean: D) {
    1 <= pass <= maxPasses && Drain(step, maxPasses - pass + 1, data) == clean
  }

  /** The part of the invariant that asks nothing of the steps. */
  ghost predicate Order<D(!new)>(scripts: seq<Script<D>>, m: Machine<D>, j: nat) {
    && Ledger(scripts, m.db, j) && Log(scripts, m.db, j, m.log) && BarrierUp(scripts, m.db, j, m.log)
    && LastLowered(scripts, m.db, j, m.log) && AtPlace(scripts, m, j)
  }

  /** The part about the data, for well-written steps. */
  ghost predicate Course<D(!new)>(scripts: seq<Script<D>>, maxPasses: nat, start: D, m: Machine<D>, j: nat)
    requires Order(scripts, m, j)
  {
    OnCourse(scripts, maxPasses, start, m.db, j) && InStep(scripts, maxPasses, start, m, j)
  }

  // ---------------------------------------------------------------- every action keeps it

  /** Touching the row of script `j`, but neither its cursor nor its end, moves nothing. */
  lemma {:induction false} RowTouched<D(!new)>(scripts: seq<Script<D>>, db: Db<D>, db': Db<D>, j: nat)
    requires Distinct(scripts) && Ledger(scripts, db, j) && j < |scripts|
    requires forall name :: name != scripts[j].name ==>
               (name in db'.ledger <==> name in db.ledger) && (name in db.ledger ==> db'.ledger[name] == db.ledger[name])
    requires RowOf(db', scripts[j].name).cursor == RowOf(db, scripts[j].name).cursor
    requires !RowOf(db', scripts[j].name).finished
    ensures Ledger(scripts, db', j)
    ensures Recorded(scripts, db', j) == Recorded(scripts, db, j)
  {
  }

  /** The script the ledger has reached: writing `finishedAt` moves it on by one. */
  function Reached<D>(m: Machine<D>, j: nat, a: Action): nat {
    if a == Statement && m.pc == Finish then j + 1 else j
  }

  lemma {:induction false} StopOrder<D(!new)>(scripts: seq<Script<D>>, maxPasses: nat, m: Machine<D>, j: nat, recorded: bool)
    requires Distinct(scripts) && Order(scripts, m, j)
    ensures Order(scripts, Act(scripts, maxPasses, m, Stop(recorded)), j)
  {
    var m' := Act(scripts, maxPasses, m, Stop(recorded));
    if m'.db != m.db {
      RowTouched(scripts, m.db, m'.db, j);
    }
  }

  /** A new execution in its turn, or a new mark, keeps every execution in its turn. */
  lemma {:induction false} LogGrows<D(!new)>(scripts: seq<Script<D>>, log: seq<Event>, e: Event)
    requires InTurn(scripts, log)
    requires e.Ran? ==> EarlierStepsMarked(scripts, log, e.i, e.k)
    ensures InTurn(scripts, log + [e])
  {
    var log' := log + [e];
    forall p | 0 <= p < |log'| && log'[p].Ran?
      ensures EarlierStepsMarked(scripts, log'[..p], log'[p].i, log'[p].k)
    {
      if p < |log| {
        assert log'[..p] == log[..p];
      } else {
        assert log'[..p] == log;
      }
    }
  }

  lemma {:induction false} AtOrder<D(!new)>(scripts: seq<Script<D>>, maxPasses: nat, m: Machine<D>, j: nat)
    requires Distinct(scripts) && Order(scripts, m, j) && m.pc.At?
    ensures Order(scripts, Next(scripts, maxPasses, m), j)
  {
    var m' := Next(scripts, maxPasses, m);
    RowTouched(scripts, m.db, m'.db, j);
    var e := m'.log[|m.log|];
    assert m'.log == m.log + [e];
    LogGrows(scripts, m.log, e);
  }

  lemma {:induction false} MarkOrder<D(!new)>(scripts: seq<Script<D>>, maxPasses: nat, m: Machine<D>, j: nat)
    requires Distinct(scripts) && Order(scripts, m, j) && m.pc.Mark?
    ensures Order(scripts, Next(scripts, maxPasses, m), j)
    ensures Recorded(scripts, Next(scripts, maxPasses, m).db, j) == m.pc.k + 1
  {
    var m' := Next(scripts, maxPasses, m);
    var k := m.pc.k;
    SkipToFinds(scripts[j].steps, k);
    assert Recorded(scripts, m'.db, j) == k + 1;
    MarkLog(scripts, m.db, m'.db, j, k, m.log);
    assert m'.log == m.log + [Marked(j, k)];
    hide Log;
    hide InTurn;
    hide Recorded;
    assert Marked(j, k) in m'.log && forall e :: e in m.log ==> e in m'.log;
    assert forall i: nat :: Lowered(i) in m'.log <==> Lowered(i) in m.log;
    hide SkipTo;
    hide ResumeAt;
  }

  lemma {:induction false} MarkLog<D(!new)>(scripts: seq<Script<D>>, db: Db<D>, db': Db<D>, j: nat, k: nat, log: seq<Event>)
    requires j < |scripts| && Log(scripts, db, j, log)
    requires Recorded(scripts, db, j) == k && Recorded(scripts, db', j) == k + 1
    ensures Log(scripts, db', j, log + [Marked(j, k)])
  {
    var log' := log + [Marked(j, k)];
    LogGrows(scripts, log, Marked(j, k));
    hide InTurn;
    hide Recorded;
    assert Marked(j, k) in log' && forall e :: e in log ==> e in log';
  }

  lemma {:induction false} QuietOrder<D(!new)>(scripts: seq<Script<D>>, maxPasses: nat, m: Machine<D>, j: nat)
    requires Distinct(scripts) && Order(scripts, m, j) && m.i < |scripts|
    requires m.pc.Begin? || m.pc.Raise? || m.pc.Counted?
    ensures Order(scripts, Next(scripts, maxPasses, m), j)
  {
    if m.i < j {
      assert scripts[m.i].name in m.db.ledger;
    } else {
      RowTouched(scripts, m.db, Next(scripts, maxPasses, m).db, j);
    }
  }

  lemma {:induction false} FinishOrder<D(!new)>(scripts: seq<Script<D>>, maxPasses: nat, m: Machine<D>, j: nat)
    requires Distinct(scripts) && Order(scripts, m, j) && m.pc.Finish?
    ensures Order(scripts, Next(scripts, maxPasses, m), j + 1)
  {
    var m' := Next(scripts, maxPasses, m);
    if j + 1 < |scripts| {
      assert Recorded(scripts, m'.db, j + 1) == 0;
    }
    hide InTurn;
  }

  lemma {:induction false} LowerOrder<D(!new)>(scripts: seq<Script<D>>, maxPasses: nat, m: Machine<D>, j: nat)
    requires Distinct(scripts) && Order(scripts, m, j) && m.pc.Lower?
    ensures Order(scripts, Next(scripts, maxPasses, m), j)
  {
    var m' := Next(scripts, maxPasses, m);
    LogGrows(scripts, m.log, Lowered(m.i));
    hide InTurn;
    assert m'.log == m.log + [Lowered(m.i)];
    assert forall e :: e in m'.log <==> e in m.log || e == Lowered(m.i);
    if j < |scripts| {
      assert Recorded(scripts, m'.db, j) == Recorded(scripts, m.db, j);
      assert scripts[j].name != scripts[m.i].name;
    }
    hide Recorded;
  }

  lemma {:induction false} DoneStays<D(!new)>(scripts: seq<Script<D>>, maxPasses: nat, m: Machine<D>)
    requires m.i >= |scripts|
    ensures Next(scripts, maxPasses, m) == m
  {
  }

  lemma {:induction false} ActOrder<D(!new)>(scripts: seq<Script<D>>, maxPasses: nat, m: Machine<D>, j: nat, a: Action)
    requires Distinct(scripts) && Order(scripts, m, j)
    ensures Order(scripts, Act(scripts, maxPasses, m, a), Reached(m, j, a))
  {
    if a.Stop? {
      StopOrder(scripts, maxPasses, m, j, a.recorded);
    } else if m.i >= |scripts| {
      DoneStays(scripts, maxPasses, m);
    } else {
      hide Order;
      hide Next;
      match m.pc
      case Begin => QuietOrder(scripts, maxPasses, m, j);
      case Raise(_) => QuietOrder(scripts, maxPasses, m, j);
      case At(_, _) => AtOrder(scripts, maxPasses, m, j);
      case Counted(_, _, _) => QuietOrder(scripts, maxPasses, m, j);
      case Mark(_) => MarkOrder(scripts, maxPasses, m, j);
      case Finish => FinishOrder(scripts, maxPasses, m, j);
      case Lower => LowerOrder(scripts, maxPasses, m, j);
    }
  }

  // The data, when the steps are steady.

  lemma {:induction false} PassLeads<D(!new)>(step: Step<D>, maxPasses: nat, data: D, pass: nat, clean: D)
    requires Leads(step, maxPasses, data, pass, clean)
    ensures var (data', n) := step.run(data);
      if n == 0 || pass >= maxPasses then data' == clean else Leads(step, maxPasses, data', pass + 1, clean)
  {
    var (data', n) := step.run(data);
    assert Drain(step, 0, data') == data';
    assert maxPasses - pass + 1 > 0;
  }

  lemma {:induction false} AtCourse<D(!new)>(scripts: seq<Script<D>>, maxPasses: nat, start: D, m: Machine<D>, j: nat)
    requires Distinct(scripts) && Order(scripts, m, j) && Course(scripts, maxPasses, start, m, j) && m.pc.At?
    requires Order(scripts, Next(scripts, maxPasses, m), j)
    ensures Course(scripts, maxPasses, start, Next(scripts, maxPasses, m), j)
  {
    var k := m.pc.k;
    var step := scripts[j].steps[k];
    var clean := CleanAt(scripts, maxPasses, start, j, k + 1);
    assert clean == CleanStep(step, maxPasses, CleanAt(scripts, maxPasses, start, j, k));
    SteadyAgain(step, maxPasses, m.db.data);
    if step.repeatUntilZero {
      PassLeads(step, maxPasses, m.db.data, m.pc.pass, clean);
    }
    hide Steady;
    hide Leads;
    hide Log;
    hide BarrierUp;
    hide LastLowered;
    hide Distinct;
    hide CleanAt;
    hide Drain;
    var m' := Next(scripts, maxPasses, m);
    assert Recorded(scripts, m'.db, j) == k;
  }

  /** Entering the step after the recorded ones, with the data on course. */
  lemma {:induction false} EnterCourse<D(!new)>(scripts: seq<Script<D>>, maxPasses: nat, start: D, m: Machine<D>, j: nat)
    requires Order(scripts, m, j) && OnCourse(scripts, maxPasses, start, m.db, j) && j < |scripts|
    requires m.pc == Enter(scripts[j].steps, maxPasses, Recorded(scripts, m.db, j))
    ensures Course(scripts, maxPasses, start, m, j)
  {
    var k := Recorded(scripts, m.db, j);
    if k < |scripts[j].steps| {
      var step := scripts[j].steps[k];
      assert CleanAt(scripts, maxPasses, start, j, k + 1)
          == CleanStep(step, maxPasses, CleanAt(scripts, maxPasses, start, j, k));
    }
  }

  lemma {:induction false} MarkCourse<D(!new)>(scripts: seq<Script<D>>, maxPasses: nat, start: D, m: Machine<D>, j: nat)
    requires Distinct(scripts) && Robust(scripts, maxPasses, start)
    requires Order(scripts, m, j) && Course(scripts, maxPasses, start, m, j) && m.pc.Mark?
    requires Order(scripts, Next(scripts, maxPasses, m), j)
    ensures Course(scripts, maxPasses, start, Next(scripts, maxPasses, m), j)
  {
    MarkOrder(scripts, maxPasses, m, j);
    hide Log;
    hide BarrierUp;
    hide LastLowered;
    hide Ledger;
    hide Distinct;
    EnterCourse(scripts, maxPasses, start, Next(scripts, maxPasses, m), j);
  }

  /** The clean result of script `j` is where script `j + 1` starts. */
  lemma {:induction false} NextScript<D(!new)>(scripts: seq<Script<D>>, maxPasses: nat, start: D, db: Db<D>, j: nat)
    requires Robust(scripts, maxPasses, start) && j < |scripts|
    requires db.data == CleanAt(scripts, maxPasses, start, j, |scripts[j].steps|)
    requires j + 1 < |scripts| ==> scripts[j + 1].name !in db.ledger
    ensures OnCourse(scripts, maxPasses, start, db, j + 1)
  {
    assert CleanAt(scripts, maxPasses, start, j + 1, 0) == CleanAt(scripts, maxPasses, start, j, |scripts[j].steps|);
    if j + 1 < |scripts| {
      assert Recorded(scripts, db, j + 1) == 0;
      if |scripts[j + 1].steps| > 0 {
        assert Steady(scripts[j + 1].steps[0], maxPasses, CleanAt(scripts, maxPasses, start, j + 1, 0));
      }
    }
  }

  lemma {:induction false} FinishCourse<D(!new)>(scripts: seq<Script<D>>, maxPasses: nat, start: D, m: Machine<D>, j: nat)
    requires Distinct(scripts) && Robust(scripts, maxPasses, start)
    requires Order(scripts, m, j) && Course(scripts, maxPasses, start, m, j) && m.pc.Finish?
    requires Order(scripts, Next(scripts, maxPasses, m), j + 1)
    ensures Course(scripts, maxPasses, start, Next(scripts, maxPasses, m), j + 1)
  {
    hide Log;
    hide BarrierUp;
    hide Distinct;
    hide CleanAt;
    hide Robust;
    NextScript(scripts, maxPasses, start, Next(scripts, maxPasses, m).db, j);
  }

  /** Actions that leave the data and the cursor alone. */
  lemma {:induction false} QuietCourse<D(!new)>(scripts: seq<Script<D>>, maxPasses: nat, start: D, m: Machine<D>, j: nat, a: Action)
    requires Distinct(scripts) && Order(scripts, m, j) && Course(scripts, maxPasses, start, m, j)
    requires a.Stop? || m.i >= |scripts| || m.pc.Begin? || m.pc.Raise? || m.pc.Counted? || m.pc.Lower?
    requires Order(scripts, Act(scripts, maxPasses, m, a), j)
    ensures Course(scripts, maxPasses, start, Act(scripts, maxPasses, m, a), j)
  {
    hide Log;
    hide BarrierUp;
    hide LastLowered;
    hide Distinct;
    hide CleanAt;
    var m' := Act(scripts, maxPasses, m, a);
    if j < |scripts| {
      assert Recorded(scripts, m'.db, j) == Recorded(scripts, m.db, j);
    }
    if a == Statement && m.pc.Raise? {
      EnterCourse(scripts, maxPasses, start, m', j);
    }
  }

  lemma {:induction false} ActCourse<D(!new)>(scripts: seq<Script<D>>, maxPasses: nat, start: D, m: Machine<D>, j: nat, a: Action)
    requires Distinct(scripts) && Robust(scripts, maxPasses, start)
    requires Order(scripts, m, j) && Course(scripts, maxPasses, start, m, j)
    requires Order(scripts, Act(scripts, maxPasses, m, a), Reached(m, j, a))
    ensures Course(scripts, maxPasses, start, Act(scripts, maxPasses, m, a), Reached(m, j, a))
  {
    hide Course;
    hide Next;
    if a == Statement && m.i < |scripts| && m.pc.At? {
      AtCourse(scripts, maxPasses, start, m, j);
    } else if a == Statement && m.i < |scripts| && m.pc.Mark? {
      MarkCourse(scripts, maxPasses, start, m, j);
    } else if a == Statement && m.i < |scripts| && m.pc.Finish? {
      FinishCourse(scripts, maxPasses, start, m, j);
    } else {
      QuietCourse(scripts, maxPasses, start, m, j, a);
    }
  }

  lemma {:induction false} FreshIsOnCourse<D(!new)>(scripts: seq<Script<D>>, maxPasses: nat, start: D)
    ensures Order(scripts, Fresh(start), 0)
    ensures Robust(scripts, maxPasses, start) ==> Course(scripts, maxPasses, start, Fresh(start), 0)
  {
    if Robust(scripts, maxPasses, start) && |scripts| > 0 && |scripts[0].steps| > 0 {
      assert Steady(scripts[0].steps[0], maxPasses, CleanAt(scripts, maxPasses, start, 0, 0));
    }
  }

  /** The invariant holds after any statements, crashes and failures. */
  lemma {:induction false} PlayKeeps<D(!new)>(scripts: seq<Script<D>>, maxPasses: nat, start: D, actions: seq<Action>)
    returns (j: nat)
    requires Distinct(scripts)
    ensures Order(scripts, Play(scripts, maxPasses, Fresh(start), actions), j)
    ensures Robust(scripts, maxPasses, start) ==>
              Course(scripts, maxPasses, start, Play(scripts, maxPasses, Fresh(start), actions), j)
    decreases |actions|
  {
    hide Order;
    hide Course;
    hide Robust;
    if actions == [] {
      FreshIsOnCourse(scripts, maxPasses, start);
      j := 0;
    } else {
      var before, a := actions[..|actions| - 1], actions[|actions| - 1];
      var m := Play(scripts, maxPasses, Fresh(start), before);
      var i := PlayKeeps(scripts, maxPasses, start, before);
      j := Reached(m, i, a);
      ActOrder(scripts, maxPasses, m, i, a);
      if Robust(scripts, maxPasses, start) {
        ActCourse(scripts, maxPasses, start, m, i, a);
      }
    }
  }

  // ---------------------------------------------------------------- the theorems

  predicate IsFinished<D>(scripts: seq<Script<D>>, db: Db<D>, i: nat)
    requires i < |scripts|
  {
    scripts[i].name in db.ledger && db.ledger[scripts[i].name].finished
  }

  predicate IsUnfinished<D>(scripts: seq<Script<D>>, db: Db<D>, i: nat)
    requires i < |scripts|
  {
    scripts[i].name in db.ledger && !db.ledger[scripts[i].name].finished
  }

  /** The first `n` scripts are finished and the next one has not begun. */
  ghost predicate FinishedThrough<D(!new)>(scripts: seq<Script<D>>, db: Db<D>, n: nat) {
    && n <= |scripts|
    && (forall i :: 0 <= i < n ==> IsFinished(scripts, db, i))
    && (n < |scripts| ==> scripts[n].name !in db.ledger)
  }

  /** Crash-resume equals one clean run: whenever a script's end is on record, so is its clean result. */
  lemma {:induction false} CrashResumeIsACleanRun<D(!new)>(scripts: seq<Script<D>>, maxPasses: nat, start: D, actions: seq<Action>, n: nat)
    requires Distinct(scripts) && Robust(scripts, maxPasses, start)
    requires FinishedThrough(scripts, Play(scripts, maxPasses, Fresh(start), actions).db, n)
    ensures Play(scripts, maxPasses, Fresh(start), actions).db.data == CleanAt(scripts, maxPasses, start, n, 0)
  {
    var j := PlayKeeps(scripts, maxPasses, start, actions);
    var db := Play(scripts, maxPasses, Fresh(start), actions).db;
    var reached := j < |scripts| && IsFinished(scripts, db, j);
    assert n == j;
  }

  /** No step is executed before every earlier step is recorded, across all crashes. */
  lemma {:induction false} StepsRunInTurn<D(!new)>(scripts: seq<Script<D>>, maxPasses: nat, start: D, actions: seq<Action>)
    requires Distinct(scripts)
    ensures InTurn(scripts, Play(scripts, maxPasses, Fresh(start), actions).log)
  {
    var j := PlayKeeps(scripts, maxPasses, start, actions);
  }

  /** An executed and unfinished script holds the barrier, and no other script is unfinished. */
  lemma {:induction false} BarrierSafety<D(!new)>(scripts: seq<Script<D>>, maxPasses: nat, start: D, actions: seq<Action>, i: nat)
    requires Distinct(scripts) && i < |scripts|
    requires var m := Play(scripts, maxPasses, Fresh(start), actions);
      !IsFinished(scripts, m.db, i) && exists k, n :: Ran(i, k, n) in m.log
    ensures var m := Play(scripts, maxPasses, Fresh(start), actions);
      && m.db.barrier == Some(scripts[i].name)
      && forall i' :: 0 <= i' < |scripts| && i' != i ==> !IsUnfinished(scripts, m.db, i')
  {
    var j := PlayKeeps(scripts, maxPasses, start, actions);
    var m := Play(scripts, maxPasses, Fresh(start), actions);
    var k, n :| Ran(i, k, n) in m.log;
    assert Ran(i, k, n).i <= j;
    assert i == j;
  }

  /** At any time at most one script is started and unfinished, whether or not a step has run. */
  lemma {:induction false} AtMostOneUnfinished<D(!new)>(
    scripts: seq<Script<D>>, maxPasses: nat, start: D, actions: seq<Action>, i: nat, i': nat)
    requires Distinct(scripts) && i < |scripts| && i' < |scripts| && i != i'
    ensures var db := Play(scripts, maxPasses, Fresh(start), actions).db;
      !(IsUnfinished(scripts, db, i) && IsUnfinished(scripts, db, i'))
  {
    var j := PlayKeeps(scripts, maxPasses, start, actions);
  }

  // ---------------------------------------------------------------- a run that is not interrupted

  lemma {:induction false} PlayOn<D(!new)>(scripts: seq<Script<D>>, maxPasses: nat, m: Machine<D>, a: seq<Action>, b: seq<Action>)
    ensures Play(scripts, maxPasses, m, a + b) == Play(scripts, maxPasses, Play(scripts, maxPasses, m, a), b)
    decreases |b|
  {
    if b == [] {
      assert a + b == a;
    } else {
      PlayOn(scripts, maxPasses, m, a, b[..|b| - 1]);
      assert (a + b)[..|a + b| - 1] == a + b[..|b| - 1];
    }
  }

  lemma {:induction false} PlayOne<D(!new)>(scripts: seq<Script<D>>, maxPasses: nat, m: Machine<D>, a: seq<Action>, x: Action)
    ensures Play(scripts, maxPasses, m, a + [x]) == Act(scripts, maxPasses, Play(scripts, maxPasses, m, a), x)
  {
    assert (a + [x])[..|a|] == a;
  }

  /** A process that completes `n` statements. */
  function After<D>(scripts: seq<Script<D>>, maxPasses: nat, m: Machine<D>, n: nat): Machine<D> {
    Play(scripts, maxPasses, m, seq(n, _ => Statement))
  }

  lemma {:induction false} AfterOneMore<D(!new)>(scripts: seq<Script<D>>, maxPasses: nat, m: Machine<D>, n: nat)
    ensures After(scripts, maxPasses, m, n + 1) == Next(scripts, maxPasses, After(scripts, maxPasses, m, n))
  {
    assert seq(n + 1, _ => Statement)[..n] == seq(n, _ => Statement);
  }

  lemma {:induction false} AfterNone<D(!new)>(scripts: seq<Script<D>>, maxPasses: nat, m: Machine<D>)
    ensures After(scripts, maxPasses, m, 0) == m
  {
  }

  lemma {:induction false} AfterMore<D(!new)>(scripts: seq<Script<D>>, maxPasses: nat, m: Machine<D>, a: nat, b: nat)
    ensures After(scripts, maxPasses, After(scripts, maxPasses, m, a), b) == After(scripts, maxPasses, m, a + b)
  {
    PlayOn(scripts, maxPasses, m, seq(a, _ => Statement), seq(b, _ => Statement));
    assert seq(a, _ => Statement) + seq(b, _ => Statement) == seq(a + b, _ => Statement);
  }

  predicate EndsWith(log: seq<Event>, e: Event) {
    log != [] && log[|log| - 1] == e
  }

  /** Statements inside script `m.i` leave the other rows, the barrier and the end of its own row alone. */
  ghost predicate Onward<D(!new)>(scripts: seq<Script<D>>, m: Machine<D>, m': Machine<D>)
    requires m.i < |scripts|
  {
    && m'.i == m.i && m'.db.barrier == m.db.barrier
    && RowOf(m'.db, scripts[m.i].name).finished == RowOf(m.db, scripts[m.i].name).finished
    && (scripts[m.i].name in m.db.ledger ==> scripts[m.i].name in m'.db.ledger)
    && forall name :: name != scripts[m.i].name ==>
         (name in m'.db.ledger <==> name in m.db.ledger)
         && (name in m.db.ledger ==> m'.db.ledger[name] == m.db.ledger[name])
  }

  lemma {:induction false} PassesRun<D(!new)>(scripts: seq<Script<D>>, maxPasses: nat, m: Machine<D>) returns (n: nat)
    requires m.i < |scripts| && m.pc.At? && m.pc.k < |scripts[m.i].steps| && scripts[m.i].steps[m.pc.k].repeatUntilZero
    requires 1 <= m.pc.pass <= maxPasses
    ensures var m' := After(scripts, maxPasses, m, n);
      && Onward(scripts, m, m') && m'.pc == Mark(m.pc.k)
      && RowOf(m'.db, scripts[m.i].name).cursor == RowOf(m.db, scripts[m.i].name).cursor
      && m'.db.data == Drain(scripts[m.i].steps[m.pc.k], maxPasses - m.pc.pass + 1, m.db.data)
    decreases maxPasses - m.pc.pass
  {
    hide After;
    var m1 := Next(scripts, maxPasses, m);
    var m2 := Next(scripts, maxPasses, m1);
    AfterNone(scripts, maxPasses, m);
    AfterOneMore(scripts, maxPasses, m, 0);
    AfterOneMore(scripts, maxPasses, m, 1);
    n := 2;
    if !m2.pc.Mark? {
      var rest := PassesRun(scripts, maxPasses, m2);
      AfterMore(scripts, maxPasses, m, 2, rest);
      n := 2 + rest;
    }
  }

  lemma {:induction false} StepRuns<D(!new)>(scripts: seq<Script<D>>, maxPasses: nat, m: Machine<D>, k: nat) returns (n: nat)
    requires m.i < |scripts| && k < |scripts[m.i].steps| && m.pc == Enter(scripts[m.i].steps, maxPasses, k)
    ensures var m' := After(scripts, maxPasses, m, n);
      && Onward(scripts, m, m') && m'.pc == Enter(scripts[m.i].steps, maxPasses, k + 1)
      && m'.db.data == CleanStep(scripts[m.i].steps[k], maxPasses, m.db.data)
      && RowOf(m'.db, scripts[m.i].name).cursor == Some(scripts[m.i].steps[k].name)
      && EndsWith(m'.log, Marked(m.i, k))
  {
    hide After;
    AfterNone(scripts, maxPasses, m);
    n := 0;
    if scripts[m.i].steps[k].repeatUntilZero && maxPasses > 0 {
      n := PassesRun(scripts, maxPasses, m);
    } else if maxPasses > 0 || !scripts[m.i].steps[k].repeatUntilZero {
      AfterOneMore(scripts, maxPasses, m, 0);
      n := 1;
    }
    AfterOneMore(scripts, maxPasses, m, n);
    n := n + 1;
  }

  /** The steps from `k` up to `stop`. */
  lemma {:induction false} StepsRun<D(!new)>(
    scripts: seq<Script<D>>, maxPasses: nat, start: D, m: Machine<D>, k: nat, stop: nat) returns (n: nat)
    requires m.i < |scripts| && k <= stop <= |scripts[m.i].steps| && m.pc == Enter(scripts[m.i].steps, maxPasses, k)
    requires m.db.data == CleanAt(scripts, maxPasses, start, m.i, k)
    ensures var m' := After(scripts, maxPasses, m, n);
      && Onward(scripts, m, m') && m'.pc == Enter(scripts[m.i].steps, maxPasses, stop)
      && m'.db.data == CleanAt(scripts, maxPasses, start, m.i, stop)
      && RowOf(m'.db, scripts[m.i].name).cursor
         == (if stop == k then RowOf(m.db, scripts[m.i].name).cursor else Some(scripts[m.i].steps[stop - 1].name))
    decreases stop - k
  {
    hide After;
    hide Enter;
    if k == stop {
      AfterNone(scripts, maxPasses, m);
      n := 0;
    } else {
      n := StepRuns(scripts, maxPasses, m, k);
      var m1 := After(scripts, maxPasses, m, n);
      assert m1.db.data == CleanAt(scripts, maxPasses, start, m.i, k + 1);
      hide CleanAt;
      var rest := StepsRun(scripts, maxPasses, start, m1, k + 1, stop);
      AfterMore(scripts, maxPasses, m, n, rest);
      n := n + rest;
    }
  }

  /** One script, from its first statement to the lowering of its barrier. */
  lemma {:induction false} ScriptRuns<D(!new)>(scripts: seq<Script<D>>, maxPasses: nat, start: D, m: Machine<D>) returns (n: nat)
    requires m.i < |scripts| && m.pc == Begin
    requires !RowOf(m.db, scripts[m.i].name).finished && RowOf(m.db, scripts[m.i].name).cursor == None
    requires m.db.data == CleanAt(scripts, maxPasses, start, m.i, 0)
    ensures n > 0 && After(scripts, maxPasses, m, n - 1).pc == Lower && After(scripts, maxPasses, m, n - 1).i == m.i
    ensures var m' := After(scripts, maxPasses, m, n);
      && m'.i == m.i + 1 && m'.pc == Begin && m'.db.barrier == None && IsFinished(scripts, m'.db, m.i)
      && m'.db.data == CleanAt(scripts, maxPasses, start, m.i + 1, 0)
      && forall name :: name != scripts[m.i].name ==>
           (name in m'.db.ledger <==> name in m.db.ledger)
           && (name in m.db.ledger ==> m'.db.ledger[name] == m.db.ledger[name])
  {
    hide After;
    AfterNone(scripts, maxPasses, m);
    AfterOneMore(scripts, maxPasses, m, 0);
    AfterOneMore(scripts, maxPasses, m, 1);
    var m2 := After(scripts, maxPasses, m, 2);
    assert CleanAt(scripts, maxPasses, start, m.i + 1, 0) == CleanAt(scripts, maxPasses, start, m.i, |scripts[m.i].steps|);
    hide CleanAt;
    n := StepsRun(scripts, maxPasses, start, m2, 0, |scripts[m.i].steps|);
    AfterMore(scripts, maxPasses, m, 2, n);
    AfterOneMore(scripts, maxPasses, m, 2 + n);
    AfterOneMore(scripts, maxPasses, m, 3 + n);
    n := n + 4;
  }

  /** The scripts from `m.i` up to `stop`. */
  lemma {:induction false} TrackRuns<D(!new)>(scripts: seq<Script<D>>, maxPasses: nat, start: D, m: Machine<D>, stop: nat)
    returns (n: nat)
    requires Distinct(scripts) && m.i <= stop <= |scripts| && m.pc == Begin && FinishedThrough(scripts, m.db, m.i)
    requires forall i :: m.i <= i < |scripts| ==> scripts[i].name !in m.db.ledger
    requires m.db.data == CleanAt(scripts, maxPasses, start, m.i, 0)
    ensures var m' := After(scripts, maxPasses, m, n);
      && m'.i == stop && m'.pc == Begin && FinishedThrough(scripts, m'.db, stop)
      && m'.db.data == CleanAt(scripts, maxPasses, start, stop, 0)
      && (m.i < stop ==> m'.db.barrier == None)
    ensures m.i == stop ==> n == 0
    ensures m.i < stop ==>
      n > 0 && After(scripts, maxPasses, m, n - 1).pc == Lower && After(scripts, maxPasses, m, n - 1).i + 1 == stop
    decreases stop - m.i
  {
    hide After;
    hide CleanAt;
    if m.i == stop {
      AfterNone(scripts, maxPasses, m);
      n := 0;
    } else {
      n := ScriptRuns(scripts, maxPasses, start, m);
      var m1 := After(scripts, maxPasses, m, n);
      assert forall i :: 0 <= i < m.i ==> scripts[i].name != scripts[m.i].name && IsFinished(scripts, m.db, i);
      assert forall i :: m.i < i < |scripts| ==> scripts[i].name != scripts[m.i].name;
      assert forall i :: 0 <= i < m.i ==> IsFinished(scripts, m1.db, i);
      assert FinishedThrough(scripts, m1.db, m1.i);
      var rest := TrackRuns(scripts, maxPasses, start, m1, stop);
      AfterMore(scripts, maxPasses, m, n, rest);
      if rest > 0 {
        AfterMore(scripts, maxPasses, m, n, rest - 1);
      }
      n := n + rest;
    }
  }

  /** Some number of statements finishes the track, and what it leaves is the clean data. */
  lemma {:induction false} CleanRunFinishes<D(!new)>(scripts: seq<Script<D>>, maxPasses: nat, start: D) returns (n: nat)
    requires Distinct(scripts)
    ensures var m := After(scripts, maxPasses, Fresh(start), n);
      && m.i == |scripts| && FinishedThrough(scripts, m.db, |scripts|) && m.db.barrier == None
      && m.db.data == CleanAt(scripts, maxPasses, start, |scripts|, 0)
    ensures |scripts| > 0 ==>
      && n > 0 && After(scripts, maxPasses, Fresh(start), n - 1).pc == Lower
      && After(scripts, maxPasses, Fresh(start), n - 1).i + 1 == |scripts|
  {
    n := TrackRuns(scripts, maxPasses, start, Fresh(start), |scripts|);
    AfterNone(scripts, maxPasses, Fresh(start));
  }

  /** So any finish, after any crashes, leaves the data of a run that was never interrupted. */
  lemma {:induction false} AnyFinishIsTheCleanRun<D(!new)>(scripts: seq<Script<D>>, maxPasses: nat, start: D, actions: seq<Action>)
    returns (n: nat)
    requires Distinct(scripts) && Robust(scripts, maxPasses, start)
    requires FinishedThrough(scripts, Play(scripts, maxPasses, Fresh(start), actions).db, |scripts|)
    ensures var clean := After(scripts, maxPasses, Fresh(start), n);
      && FinishedThrough(scripts, clean.db, |scripts|)
      && Play(scripts, maxPasses, Fresh(start), actions).db.data == clean.db.data
  {
    n := CleanRunFinishes(scripts, maxPasses, start);
    CrashResumeIsACleanRun(scripts, maxPasses, start, actions, |scripts|);
  }

  // ---------------------------------------------------------------- where the promise ends

  /**
   When every script is finished, the barrier is down if and only if some process lived to lower
   it after the last one.
   */
  lemma {:induction false} BarrierClearsIff<D(!new)>(scripts: seq<Script<D>>, maxPasses: nat, start: D, actions: seq<Action>)
    requires Distinct(scripts) && |scripts| > 0
    requires FinishedThrough(scripts, Play(scripts, maxPasses, Fresh(start), actions).db, |scripts|)
    ensures var m := Play(scripts, maxPasses, Fresh(start), actions);
      m.db.barrier == None <==> Lowered(|scripts| - 1) in m.log
  {
    var j := PlayKeeps(scripts, maxPasses, start, actions);
    assert j < |scripts| ==> IsFinished(scripts, Play(scripts, maxPasses, Fresh(start), actions).db, j);
  }

  /** Once every script is finished, no number of reruns touches the database again. */
  lemma {:induction false} FinishedForGood<D(!new)>(scripts: seq<Script<D>>, maxPasses: nat, m: Machine<D>, actions: seq<Action>)
    requires forall i :: 0 <= i < |scripts| ==> IsFinished(scripts, m.db, i)
    requires m.pc == Begin
    ensures Play(scripts, maxPasses, m, actions).db == m.db
    ensures Play(scripts, maxPasses, m, actions).pc == Begin
    decreases |actions|
  {
    if actions != [] {
      FinishedForGood(scripts, maxPasses, m, actions[..|actions| - 1]);
      var m' := Play(scripts, maxPasses, m, actions[..|actions| - 1]);
      if m'.i < |scripts| {
        assert IsFinished(scripts, m.db, m'.i);
      }
    }
  }

  /**
   A process that stops between writing `finishedAt` of the last script and lowering the
   barrier leaves the barrier up, and rerunning the track never lowers it.
   */
  lemma {:induction false} BarrierCanStick<D(!new)>(scripts: seq<Script<D>>, maxPasses: nat, start: D,
                                 before: seq<Action>, recorded: bool, after: seq<Action>)
    requires Distinct(scripts)
    requires var m := Play(scripts, maxPasses, Fresh(start), before); m.pc == Lower && m.i + 1 == |scripts|
    ensures var m := Act(scripts, maxPasses, Play(scripts, maxPasses, Fresh(start), before), Stop(recorded));
      Play(scripts, maxPasses, m, after).db.barrier == Some(scripts[|scripts| - 1].name)
  {
    var j := PlayKeeps(scripts, maxPasses, start, before);
    var m := Act(scripts, maxPasses, Play(scripts, maxPasses, Fresh(start), before), Stop(recorded));
    assert forall i :: 0 <= i < |scripts| ==> IsFinished(scripts, m.db, i);
    FinishedForGood(scripts, maxPasses, m, after);
  }

  /** Every track can be left like that: an uninterrupted process that dies before its last statement. */
  lemma {:induction false} StuckBarrierIsReached<D(!new)>(scripts: seq<Script<D>>, maxPasses: nat, start: D)
    returns (actions: seq<Action>)
    requires Distinct(scripts) && |scripts| > 0
    ensures FinishedThrough(scripts, Play(scripts, maxPasses, Fresh(start), actions).db, |scripts|)
    ensures forall after: seq<Action> ::
      Play(scripts, maxPasses, Play(scripts, maxPasses, Fresh(start), actions), after).db.barrier
      == Some(scripts[|scripts| - 1].name)
  {
    var n := CleanRunFinishes(scripts, maxPasses, start);
    var before := seq(n - 1, _ => Statement);
    actions := before + [Stop(false)];
    PlayOne(scripts, maxPasses, Fresh(start), before, Stop(false));
    var m := Play(scripts, maxPasses, Fresh(start), actions);
    var j := PlayKeeps(scripts, maxPasses, start, before);
    assert forall i :: 0 <= i < |scripts| ==> IsFinished(scripts, m.db, i);
    forall after: seq<Action>
      ensures Play(scripts, maxPasses, m, after).db.barrier == Some(scripts[|scripts| - 1].name)
    {
      BarrierCanStick(scripts, maxPasses, start, before, false, after);
    }
  }

  /** A cursor that names no step of the (edited) script skips all of them and still finishes. */
  lemma {:induction false} UnknownCursorSkipsEverything<D(!new)>(script: Script<D>, maxPasses: nat, db: Db<D>, cursor: string)
    requires IsUnfinished([script], db, 0) && db.ledger[script.name].cursor == Some(cursor)
    requires forall k :: 0 <= k < |script.steps| ==> script.steps[k].name != cursor
    ensures var m := Play([script], maxPasses, Machine(db, 0, Begin, []), [Statement, Statement, Statement, Statement]);
      IsFinished([script], m.db, 0) && m.db.data == db.data && m.log == [Lowered(0)] && m.db.barrier == None
  {
    SkipToNothing(script.steps, cursor);
    var a := [Statement, Statement, Statement, Statement];
    var scripts := [script];
    var m0 := Machine(db, 0, Begin, []);
    assert a[..3] == [Statement, Statement, Statement];
    assert a[..3][..2] == [Statement, Statement];
    assert a[..3][..2][..1] == [Statement];
    assert a[..3][..2][..1][..0] == [];
    var m1 := Next(scripts, maxPasses, m0);
    var m2 := Next(scripts, maxPasses, m1);
    var m3 := Next(scripts, maxPasses, m2);
    assert Play(scripts, maxPasses, m0, a[..3][..2][..1]) == m1;
    assert Play(scripts, maxPasses, m0, a[..3][..2]) == m2;
    assert Play(scripts, maxPasses, m0, a[..3]) == m3;
  }

  /** A recorded cursor skips the whole script exactly when no step but the last has its name. */
  lemma {:induction false} SkipsEverythingIff<D(!new)>(steps: seq<Step<D>>, cursor: string)
    requires DistinctSteps(steps)
    ensures ResumeAt(steps, Some(cursor)) == |steps|
      <==> forall k :: 0 <= k < |steps| - 1 ==> steps[k].name != cursor
  {
    if k :| 0 <= k < |steps| - 1 && steps[k].name == cursor {
      SkipToFinds(steps, k);
    } else if |steps| > 0 && steps[|steps| - 1].name == cursor {
      SkipToFinds(steps, |steps| - 1);
    } else {
      SkipToNothing(steps, cursor);
    }
  }

  lemma {:induction false} SkipToNothing<D(!new)>(steps: seq<Step<D>>, name: string)
    requires forall k :: 0 <= k < |steps| ==> steps[k].name != name
    ensures SkipTo(steps, name) == |steps|
  {
    if steps != [] {
      SkipToNothing(steps[1..], name);
    }
  }

  // A repeated step that exhausts `maxPasses` is recorded as complete all the same.

  /** Every pass that reports rows changes the data, and every pass that reports none does not. */
  ghost predicate RowsMeanChange<D(!new)>(step: Step<D>) {
    forall d: D :: step.run(d).1 == 0 <==> step.run(d).0 == d
  }

  lemma {:induction false} UnsettledKeepsMoving<D(!new)>(step: Step<D>, p: nat, data: D)
    requires RowsMeanChange(step) && !Settles(step, p, data)
    ensures Drain(step, p + 1, data) != Drain(step, p, data)
    decreases p
  {
    if p > 0 {
      UnsettledKeepsMoving(step, p - 1, step.run(data).0);
    }
  }

  /** Whatever crashes happen, a finished script leaves what one uninterrupted run leaves. */
  ghost predicate CrashProof<D(!new)>(script: Script<D>, maxPasses: nat, start: D) {
    forall actions: seq<Action> ::
      var m := Play([script], maxPasses, Fresh(start), actions);
      IsFinished([script], m.db, 0) ==> m.db.data == CleanAt([script], maxPasses, start, 1, 0)
  }

  /** A script of one repeated step is crash-proof exactly when `maxPasses` is enough to settle it. */
  lemma {:induction false} RepeatIsCrashProofIff<D(!new)>(script: Script<D>, maxPasses: nat, start: D)
    requires |script.steps| == 1 && script.steps[0].repeatUntilZero && maxPasses > 0
    requires RowsMeanChange(script.steps[0])
    ensures CrashProof(script, maxPasses, start) <==> Settles(script.steps[0], maxPasses, start)
  {
    var scripts := [script];
    var step := script.steps[0];
    assert CleanAt(scripts, maxPasses, start, 0, 0) == start;
    assert CleanAt(scripts, maxPasses, start, 0, 1) == Drain(step, maxPasses, start);
    assert CleanAt(scripts, maxPasses, start, 1, 0) == Drain(step, maxPasses, start);
    if Settles(step, maxPasses, start) {
      assert WellWritten(scripts, maxPasses, start);
      WellWrittenIsRobust(scripts, maxPasses, start);
      forall actions: seq<Action> | IsFinished(scripts, Play(scripts, maxPasses, Fresh(start), actions).db, 0)
        ensures Play(scripts, maxPasses, Fresh(start), actions).db.data == CleanAt(scripts, maxPasses, start, 1, 0)
      {
        CrashResumeIsACleanRun(scripts, maxPasses, start, actions, 1);
      }
    } else {
      var actions := ExtraPass(script, maxPasses, start);
      UnsettledKeepsMoving(step, maxPasses - 1, step.run(start).0);
      assert Drain(step, maxPasses, start) == Drain(step, maxPasses - 1, step.run(start).0);
      assert IsFinished(scripts, Play(scripts, maxPasses, Fresh(start), actions).db, 0);
    }
  }

  /** A crash after the first pass gives the step one pass more than `maxPasses`. */
  lemma {:induction false} ExtraPass<D(!new)>(script: Script<D>, maxPasses: nat, start: D) returns (actions: seq<Action>)
    requires |script.steps| == 1 && script.steps[0].repeatUntilZero && maxPasses > 0
    ensures var m := Play([script], maxPasses, Fresh(start), actions);
      IsFinished([script], m.db, 0) && m.db.data == Drain(script.steps[0], maxPasses, script.steps[0].run(start).0)
  {
    var scripts := [script];
    var m0 := Fresh(start);
    PlayOne(scripts, maxPasses, m0, [], Statement);
    PlayOne(scripts, maxPasses, m0, [Statement], Statement);
    PlayOne(scripts, maxPasses, m0, [Statement] + [Statement], Statement);
    var three := [Statement] + [Statement] + [Statement];
    PlayOne(scripts, maxPasses, m0, three, Stop(false));
    var crash := three + [Stop(false)];
    var m := Play(scripts, maxPasses, m0, crash);
    var d := m.db.data;
    var n := ScriptRuns(scripts, maxPasses, d, m);
    PlayOn(scripts, maxPasses, m0, crash, seq(n, _ => Statement));
    actions := crash + seq(n, _ => Statement);
    assert CleanAt(scripts, maxPasses, d, 0, 0) == d;
    assert CleanAt(scripts, maxPasses, d, 0, 1) == Drain(script.steps[0], maxPasses, d);
    assert CleanAt(scripts, maxPasses, d, 1, 0) == CleanAt(scripts, maxPasses, d, 0, 1);
  }

  // ---------------------------------------------------------------- what the author owes, exactly

  /** Whenever a step is recorded as complete, the data is that of an uninterrupted run up to it. */
  ghost predicate RecordsAreClean<D(!new)>(scripts: seq<Script<D>>, maxPasses: nat, start: D) {
    forall actions: seq<Action>, j, k ::
      RecordIsClean(scripts, maxPasses, start, Play(scripts, maxPasses, Fresh(start), actions), j, k)
  }

  ghost predicate RecordIsClean<D(!new)>(scripts: seq<Script<D>>, maxPasses: nat, start: D, m: Machine<D>, j: nat, k: nat) {
    j < |scripts| && k < |scripts[j].steps| && EndsWith(m.log, Marked(j, k))
    ==> m.db.data == CleanAt(scripts, maxPasses, start, j, k + 1)
  }

  /** The last event changes, or the data does not: only `Mark` writes that a step is complete. */
  lemma {:induction false} OnlyMarkRecords<D(!new)>(
    scripts: seq<Script<D>>, maxPasses: nat, m: Machine<D>, a: Action, j: nat, k: nat)
    requires EndsWith(Act(scripts, maxPasses, m, a).log, Marked(j, k))
    ensures Act(scripts, maxPasses, m, a).db.data == m.db.data
    ensures EndsWith(m.log, Marked(j, k)) || (m.pc == Mark(k) && m.i == j < |scripts|)
  {
  }

  lemma {:induction false} MarksAreClean<D(!new)>(scripts: seq<Script<D>>, maxPasses: nat, start: D, m: Machine<D>, i: nat)
    requires Order(scripts, m, i) && Course(scripts, maxPasses, start, m, i) && m.pc.Mark?
    ensures m.i == i < |scripts| && m.pc.k < |scripts[i].steps|
    ensures m.db.data == CleanAt(scripts, maxPasses, start, i, m.pc.k + 1)
  {
  }

  lemma {:induction false} RobustRecords<D(!new)>(
    scripts: seq<Script<D>>, maxPasses: nat, start: D, actions: seq<Action>, j: nat, k: nat)
    requires Distinct(scripts) && Robust(scripts, maxPasses, start)
    ensures RecordIsClean(scripts, maxPasses, start, Play(scripts, maxPasses, Fresh(start), actions), j, k)
    decreases |actions|
  {
    if actions != [] {
      hide Order;
      hide Course;
      hide CleanAt;
      hide Robust;
      hide Act;
      var before, a := actions[..|actions| - 1], actions[|actions| - 1];
      RobustRecords(scripts, maxPasses, start, before, j, k);
      var i := PlayKeeps(scripts, maxPasses, start, before);
      var m := Play(scripts, maxPasses, Fresh(start), before);
      if EndsWith(Act(scripts, maxPasses, m, a).log, Marked(j, k)) {
        OnlyMarkRecords(scripts, maxPasses, m, a, j, k);
        if m.pc.Mark? {
          MarksAreClean(scripts, maxPasses, start, m, i);
        }
      }
    }
  }

  /** A process that starts over walks past the finished scripts. */
  lemma {:induction false} SkipFinished<D(!new)>(scripts: seq<Script<D>>, maxPasses: nat, db: Db<D>, log: seq<Event>, j: nat)
    requires j <= |scripts| && forall i :: 0 <= i < j ==> IsFinished(scripts, db, i)
    ensures After(scripts, maxPasses, Machine(db, 0, Begin, log), j) == Machine(db, j, Begin, log)
  {
    hide After;
    var m := Machine(db, 0, Begin, log);
    if j == 0 {
      AfterNone(scripts, maxPasses, m);
    } else {
      SkipFinished(scripts, maxPasses, db, log, j - 1);
      AfterOneMore(scripts, maxPasses, m, j - 1);
      assert IsFinished(scripts, db, j - 1);
    }
  }

  /** An uninterrupted run arrives at step `k` of script `j`. */
  lemma {:induction false} ArriveAt<D(!new)>(scripts: seq<Script<D>>, maxPasses: nat, start: D, j: nat, k: nat) returns (n: nat)
    requires Distinct(scripts) && j < |scripts| && k < |scripts[j].steps|
    ensures ArrivedAt(scripts, maxPasses, After(scripts, maxPasses, Fresh(start), n), j, k)
    ensures After(scripts, maxPasses, Fresh(start), n).db.data == CleanAt(scripts, maxPasses, start, j, k)
  {
    hide After;
    hide CleanAt;
    hide ArrivedAt;
    assert CleanAt(scripts, maxPasses, start, 0, 0) == start by {
      CleanStart(scripts, maxPasses, start);
    }
    n := TrackRuns(scripts, maxPasses, start, Fresh(start), j);
    var m := After(scripts, maxPasses, Fresh(start), n);
    var rest := EnterScript(scripts, maxPasses, start, m, k);
    AfterMore(scripts, maxPasses, Fresh(start), n, rest);
    n := n + rest;
  }

  lemma {:induction false} CleanStart<D(!new)>(scripts: seq<Script<D>>, maxPasses: nat, start: D)
    ensures CleanAt(scripts, maxPasses, start, 0, 0) == start
  {
  }

  lemma {:induction false} EnterScript<D(!new)>(scripts: seq<Script<D>>, maxPasses: nat, start: D, m: Machine<D>, k: nat)
    returns (n: nat)
    requires Distinct(scripts) && m.i < |scripts| && k < |scripts[m.i].steps| && m.pc == Begin
    requires FinishedThrough(scripts, m.db, m.i) && m.db.data == CleanAt(scripts, maxPasses, start, m.i, 0)
    ensures ArrivedAt(scripts, maxPasses, After(scripts, maxPasses, m, n), m.i, k)
    ensures After(scripts, maxPasses, m, n).db.data == CleanAt(scripts, maxPasses, start, m.i, k)
  {
    hide After;
    hide CleanAt;
    var j := m.i;
    AfterNone(scripts, maxPasses, m);
    AfterOneMore(scripts, maxPasses, m, 0);
    AfterOneMore(scripts, maxPasses, m, 1);
    var m2 := After(scripts, maxPasses, m, 2);
    var rest := StepsRun(scripts, maxPasses, start, m2, 0, k);
    AfterMore(scripts, maxPasses, m, 2, rest);
    n := 2 + rest;
    var m3 := After(scripts, maxPasses, m, n);
    forall i | 0 <= i < j
      ensures IsFinished(scripts, m3.db, i)
    {
      assert IsFinished(scripts, m.db, i) && scripts[i].name != scripts[j].name;
    }
    if k > 0 {
      SkipToFinds(scripts[j].steps, k - 1);
    }
  }

  /** About to run step `k` of script `j`, with the steps before it on record. */
  ghost predicate ArrivedAt<D(!new)>(scripts: seq<Script<D>>, maxPasses: nat, m: Machine<D>, j: nat, k: nat)
    requires j < |scripts| && k < |scripts[j].steps|
  {
    && m.i == j && m.pc == Enter(scripts[j].steps, maxPasses, k)
    && (forall i :: 0 <= i < j ==> IsFinished(scripts, m.db, i))
    && IsUnfinished(scripts, m.db, j)
    && ResumeAt(scripts[j].steps, RowOf(m.db, scripts[j].name).cursor) == k
  }

  /** Execute the step, and die before it is recorded. */
  lemma {:induction false} CrashOnce<D(!new)>(scripts: seq<Script<D>>, maxPasses: nat, m: Machine<D>, j: nat, k: nat)
    requires j < |scripts| && k < |scripts[j].steps| && ArrivedAt(scripts, maxPasses, m, j, k)
    requires scripts[j].steps[k].repeatUntilZero ==> maxPasses > 0
    ensures var m' := Play(scripts, maxPasses, m, [Statement, Stop(false)]);
      m' == Machine(m.db.(data := scripts[j].steps[k].run(m.db.data).0), 0, Begin, m'.log)
  {
    assert [Statement, Stop(false)][..1] == [Statement];
    assert [Statement][..0] == [];
    assert Play(scripts, maxPasses, m, []) == m;
    assert Play(scripts, maxPasses, m, [Statement]) == Next(scripts, maxPasses, m);
    hide SkipTo;
  }

  /** A process that starts over comes back to the step the ledger has reached. */
  lemma {:induction false} ComeBack<D(!new)>(scripts: seq<Script<D>>, maxPasses: nat, db: Db<D>, log: seq<Event>, j: nat, k: nat)
    requires Distinct(scripts) && j < |scripts| && k < |scripts[j].steps|
    requires IsUnfinished(scripts, db, j) && forall i :: 0 <= i < j ==> IsFinished(scripts, db, i)
    requires ResumeAt(scripts[j].steps, RowOf(db, scripts[j].name).cursor) == k
    ensures var m := After(scripts, maxPasses, Machine(db, 0, Begin, log), j + 2);
      ArrivedAt(scripts, maxPasses, m, j, k) && m.db.data == db.data
  {
    hide After;
    hide SkipTo;
    hide Enter;
    SkipFinished(scripts, maxPasses, db, log, j);
    AfterOneMore(scripts, maxPasses, Machine(db, 0, Begin, log), j);
    AfterOneMore(scripts, maxPasses, Machine(db, 0, Begin, log), j + 1);
    var m := After(scripts, maxPasses, Machine(db, 0, Begin, log), j + 2);
    forall i | 0 <= i < j
      ensures IsFinished(scripts, m.db, i)
    {
      assert IsFinished(scripts, db, i) && scripts[i].name != scripts[j].name;
    }
  }

  /** Execute the step `n` times, and die each time before it is recorded. */
  lemma {:induction false} RunMany<D(!new)>(scripts: seq<Script<D>>, maxPasses: nat, m: Machine<D>, j: nat, k: nat, n: nat)
    returns (actions: seq<Action>)
    requires j < |scripts| && k < |scripts[j].steps| && ArrivedAt(scripts, maxPasses, m, j, k)
    requires Distinct(scripts) && (scripts[j].steps[k].repeatUntilZero ==> maxPasses > 0)
    ensures var m' := Play(scripts, maxPasses, m, actions);
      ArrivedAt(scripts, maxPasses, m', j, k) && m'.db.data == Again(scripts[j].steps[k], n, m.db.data)
    decreases n
  {
    if n == 0 {
      actions := [];
    } else {
      var crash := [Statement, Stop(false)];
      CrashOnce(scripts, maxPasses, m, j, k);
      hide Play;
      hide After;
      hide Enter;
      hide ResumeAt;
      var m2 := Play(scripts, maxPasses, m, crash);
      forall i | 0 <= i < j
        ensures IsFinished(scripts, m2.db, i)
      {
        assert IsFinished(scripts, m.db, i);
      }
      ComeBack(scripts, maxPasses, m2.db, m2.log, j, k);
      AfterIsPlay(scripts, maxPasses, m2, j + 2);
      var back := seq(j + 2, _ => Statement);
      var m3 := Play(scripts, maxPasses, m2, back);
      PlayOn(scripts, maxPasses, m, crash, back);
      var rest := RunMany(scripts, maxPasses, m3, j, k, n - 1);
      PlayOn(scripts, maxPasses, m, crash + back, rest);
      actions := crash + back + rest;
    }
  }

  lemma {:induction false} AfterIsPlay<D(!new)>(scripts: seq<Script<D>>, maxPasses: nat, m: Machine<D>, n: nat)
    ensures After(scripts, maxPasses, m, n) == Play(scripts, maxPasses, m, seq(n, _ => Statement))
  {
  }

  /** A step that is not steady is recorded, after some crashes, with data no uninterrupted run has there. */
  lemma {:induction false} CrashesShow<D(!new)>(scripts: seq<Script<D>>, maxPasses: nat, start: D, j: nat, k: nat)
    returns (actions: seq<Action>)
    requires Distinct(scripts) && j < |scripts| && k < |scripts[j].steps|
    requires !Steady(scripts[j].steps[k], maxPasses, CleanAt(scripts, maxPasses, start, j, k))
    ensures !RecordIsClean(scripts, maxPasses, start, Play(scripts, maxPasses, Fresh(start), actions), j, k)
  {
    var step, d := scripts[j].steps[k], CleanAt(scripts, maxPasses, start, j, k);
    assert CleanAt(scripts, maxPasses, start, j, k + 1) == CleanStep(step, maxPasses, d);
    hide CleanAt;
    var times: nat :| CleanStep(step, maxPasses, Again(step, times, d)) != CleanStep(step, maxPasses, d);
    var n := ArriveAt(scripts, maxPasses, start, j, k);
    var m := After(scripts, maxPasses, Fresh(start), n);
    var many := RunMany(scripts, maxPasses, m, j, k, times);
    var m1 := Play(scripts, maxPasses, m, many);
    var rest := StepRuns(scripts, maxPasses, m1, k);
    var first := seq(n, _ => Statement);
    PlayOn(scripts, maxPasses, Fresh(start), first, many);
    PlayOn(scripts, maxPasses, Fresh(start), first + many, seq(rest, _ => Statement));
    actions := first + many + seq(rest, _ => Statement);
  }

  /**
   The contract of a step, exactly: for any crashes, every recorded step carries the data of an
   uninterrupted run if and only if each step, at the data it meets, gives the same however often
   it was executed before and not recorded.
   */
  lemma {:induction false} RecordsAreCleanIff<D(!new)>(scripts: seq<Script<D>>, maxPasses: nat, start: D)
    requires Distinct(scripts)
    ensures RecordsAreClean(scripts, maxPasses, start) <==> Robust(scripts, maxPasses, start)
  {
    if Robust(scripts, maxPasses, start) {
      forall actions: seq<Action>, j, k
        ensures RecordIsClean(scripts, maxPasses, start, Play(scripts, maxPasses, Fresh(start), actions), j, k)
      {
        RobustRecords(scripts, maxPasses, start, actions, j, k);
      }
    } else {
      var j, k :| 0 <= j < |scripts| && 0 <= k < |scripts[j].steps|
        && !Steady(scripts[j].steps[k], maxPasses, CleanAt(scripts, maxPasses, start, j, k));
      var actions := CrashesShow(scripts, maxPasses, start, j, k);
    }
  }

  lemma {:induction false} StepAgainDiffers<D(!new)>(step: Step<D>, maxPasses: nat, data: D)
    requires maxPasses > 0 && !Owed(step, maxPasses, data) && (step.repeatUntilZero ==> RowsMeanChange(step))
    ensures !Steady(step, maxPasses, data)
  {
    assert Again(step, 1, data) == Again(step, 0, step.run(data).0) == step.run(data).0;
    if step.repeatUntilZero {
      UnsettledKeepsMoving(step, maxPasses - 1, step.run(data).0);
    }
    assert CleanStep(step, maxPasses, Again(step, 1, data)) != CleanStep(step, maxPasses, data);
  }

  /**
   Where row counts tell whether the data changed, that is what an author can check: plain steps
   are idempotent, and repeated ones settle within `maxPasses`.
   */
  lemma {:induction false} RobustIffWellWritten<D(!new)>(scripts: seq<Script<D>>, maxPasses: nat, start: D)
    requires maxPasses > 0
    requires forall j, k :: 0 <= j < |scripts| && 0 <= k < |scripts[j].steps| && scripts[j].steps[k].repeatUntilZero ==>
      RowsMeanChange(scripts[j].steps[k])
    ensures Robust(scripts, maxPasses, start) <==> WellWritten(scripts, maxPasses, start)
  {
    if WellWritten(scripts, maxPasses, start) {
      WellWrittenIsRobust(scripts, maxPasses, start);
    } else {
      var j, k :| 0 <= j < |scripts| && 0 <= k < |scripts[j].steps|
        && !Owed(scripts[j].steps[k], maxPasses, CleanAt(scripts, maxPasses, start, j, k));
      StepAgainDiffers(scripts[j].steps[k], maxPasses, CleanAt(scripts, maxPasses, start, j, k));
    }
  }

  // ---------------------------------------------------------------- the runner of the source

  function RowsIn(log: seq<Event>): nat {
    if log == [] then 0
    else RowsIn(log[..|log| - 1]) + if log[|log| - 1].Ran? then log[|log| - 1].rows else 0
  }

  function MarksIn(log: seq<Event>): nat {
    if log == [] then 0
    else MarksIn(log[..|log| - 1]) + if log[|log| - 1].Marked? then 1 else 0
  }

  /** The rows that the passes of the repeated steps of script `i` reported. */
  function RepeatedRows<D>(scripts: seq<Script<D>>, i: nat, log: seq<Event>): nat
    requires i < |scripts|
  {
    if log == [] then 0
    else
      RepeatedRows(scripts, i, log[..|log| - 1]) + RepeatedRowsOf(scripts, i, log[|log| - 1])
  }

  function RepeatedRowsOf<D>(scripts: seq<Script<D>>, i: nat, e: Event): nat
    requires i < |scripts|
  {
    if e.Ran? && e.i == i && e.k < |scripts[i].steps| && scripts[i].steps[e.k].repeatUntilZero then e.rows else 0
  }

  lemma {:induction false} RepeatedRowsSnoc<D>(scripts: seq<Script<D>>, i: nat, log: seq<Event>, e: Event)
    requires i < |scripts|
    ensures RepeatedRows(scripts, i, log + [e]) == RepeatedRows(scripts, i, log) + RepeatedRowsOf(scripts, i, e)
  {
    assert (log + [e])[..|log|] == log;
  }

  lemma {:induction false} CountsOfSnoc(log: seq<Event>, e: Event)
    ensures RowsIn(log + [e]) == RowsIn(log) + if e.Ran? then e.rows else 0
    ensures MarksIn(log + [e]) == MarksIn(log) + if e.Marked? then 1 else 0
  {
    assert (log + [e])[..|log|] == log;
  }

  datatype Outcome =
    | Complete(stepsRun: nat, stepsSkipped: nat, rowsAffected: nat, alreadyComplete: bool)
    | Died

  /** What the steps up to `k` do to the ledger: one row, its rows, and its cursor. */
  ghost predicate Worked<D(!new)>(
    scripts: seq<Script<D>>, i: nat, before: map<string, Row>, after: map<string, Row>,
    log: seq<Event>, log': seq<Event>, stepsRun: nat, k: nat)
  {
    && i < |scripts| && scripts[i].name in before && k <= |scripts[i].steps| && (stepsRun > 0 ==> k > 0)
    && RepeatedRows(scripts, i, log') >= RepeatedRows(scripts, i, log)
    && var row := before[scripts[i].name];
       after == before[scripts[i].name := row.(
         rowsDone := row.rowsDone + (RepeatedRows(scripts, i, log') - RepeatedRows(scripts, i, log)),
         cursor := if stepsRun > 0 then Some(scripts[i].steps[k - 1].name) else row.cursor)]
  }

  /** Where the machine stands when the source's loop is at step `k`, skipping or not. */
  ghost predicate StandsAt<D(!new)>(steps: seq<Step<D>>, maxPasses: nat, pc: Pc, skipping: Option<string>, k: nat) {
    k <= |steps|
    && pc == Enter(steps, maxPasses, if skipping.Some? then k + SkipTo(steps[k..], skipping.value) else k)
  }

  lemma {:induction false} StandsAtStart<D(!new)>(steps: seq<Step<D>>, maxPasses: nat, cursor: Option<string>)
    ensures StandsAt(steps, maxPasses, Enter(steps, maxPasses, ResumeAt(steps, cursor)), cursor, 0)
  {
    assert steps[0..] == steps;
  }

  lemma {:induction false} SkipOne<D(!new)>(steps: seq<Step<D>>, maxPasses: nat, pc: Pc, name: string, k: nat)
    requires StandsAt(steps, maxPasses, pc, Some(name), k) && k < |steps|
    ensures StandsAt(steps, maxPasses, pc, if steps[k].name == name then None else Some(name), k + 1)
  {
    assert steps[k..][1..] == steps[k + 1..];
  }

  lemma {:induction false} StandsAtEnd<D(!new)>(steps: seq<Step<D>>, maxPasses: nat, pc: Pc, skipping: Option<string>)
    requires StandsAt(steps, maxPasses, pc, skipping, |steps|)
    ensures pc == Finish
  {
  }

  lemma {:induction false} NotSkipping<D(!new)>(steps: seq<Step<D>>, maxPasses: nat, pc: Pc, k: nat)
    requires k <= |steps|
    ensures StandsAt(steps, maxPasses, pc, None, k) <==> pc == Enter(steps, maxPasses, k)
  {
  }

  lemma {:induction false} NothingWorked<D(!new)>(scripts: seq<Script<D>>, i: nat, ledger: map<string, Row>, log: seq<Event>)
    requires i < |scripts| && scripts[i].name in ledger
    ensures Worked(scripts, i, ledger, ledger, log, log, 0, 0)
  {
    var name := scripts[i].name;
    assert ledger == ledger[name := ledger[name].(rowsDone := ledger[name].rowsDone + 0)];
  }

  lemma {:induction false} SkippedWorked<D(!new)>(
    scripts: seq<Script<D>>, i: nat, before: map<string, Row>, after: map<string, Row>, log: seq<Event>, log': seq<Event>, k: nat)
    requires Worked(scripts, i, before, after, log, log', 0, k) && k < |scripts[i].steps|
    ensures Worked(scripts, i, before, after, log, log', 0, k + 1)
  {
  }

  lemma {:induction false} StepWorked<D(!new)>(
    scripts: seq<Script<D>>, i: nat, before: map<string, Row>, mid: map<string, Row>, after: map<string, Row>,
    log: seq<Event>, log1: seq<Event>, log2: seq<Event>, stepsRun: nat, k: nat, repeated: nat)
    requires Worked(scripts, i, before, mid, log, log1, stepsRun, k) && k < |scripts[i].steps|
    requires RepeatedRows(scripts, i, log2) == RepeatedRows(scripts, i, log1) + repeated
    requires var name := scripts[i].name;
      && name in mid
      && after == mid[name := mid[name].(rowsDone := mid[name].rowsDone + repeated, cursor := Some(scripts[i].steps[k].name))]
    ensures Worked(scripts, i, before, after, log, log2, stepsRun + 1, k + 1)
  {
    hide RepeatedRows;
  }

  /** One row of the ledger has `rows` more, and nothing else of the ledger differs. */
  ghost predicate RowsAdded(before: map<string, Row>, after: map<string, Row>, name: string, rows: nat) {
    && name in before
    && after == before[name := before[name].(rowsDone := before[name].rowsDone + rows)]
  }

  /** Passes of a repeated step that reported `rows` in all lead from `m0` to `m`. */
  ghost predicate Passed<D(!new)>(scripts: seq<Script<D>>, m0: Machine<D>, m: Machine<D>, rows: nat) {
    && m0.i < |scripts| && m.i == m0.i
    && MarksIn(m.log) == MarksIn(m0.log) && RowsIn(m.log) == RowsIn(m0.log) + rows
    && RepeatedRows(scripts, m0.i, m.log) == RepeatedRows(scripts, m0.i, m0.log) + rows
    && RowsAdded(m0.db.ledger, m.db.ledger, scripts[m0.i].name, rows)
  }

  lemma {:induction false} NothingPassed<D(!new)>(scripts: seq<Script<D>>, m: Machine<D>)
    requires m.i < |scripts| && scripts[m.i].name in m.db.ledger
    ensures Passed(scripts, m, m, 0)
  {
    var name := scripts[m.i].name;
    assert m.db.ledger[name := m.db.ledger[name].(rowsDone := m.db.ledger[name].rowsDone + 0)] == m.db.ledger;
  }

  /** A pass is two statements: the step's SQL, and then its rows in the ledger. */
  lemma {:induction false} OnePass<D(!new)>(
    scripts: seq<Script<D>>, maxPasses: nat, m0: Machine<D>, m: Machine<D>, k: nat, pass: nat, rows: nat, recorded: Machine<D>)
    requires Passed(scripts, m0, m, rows) && m.pc == At(k, pass)
    requires k < |scripts[m.i].steps| && scripts[m.i].steps[k].repeatUntilZero
    requires recorded == Next(scripts, maxPasses, Next(scripts, maxPasses, m))
    ensures Passed(scripts, m0, recorded, rows + scripts[m.i].steps[k].run(m.db.data).1)
  {
    hide RepeatedRows;
    hide RowsIn;
    hide MarksIn;
    var n := scripts[m.i].steps[k].run(m.db.data).1;
    CountsOfSnoc(m.log, Ran(m.i, k, n));
    RepeatedRowsSnoc(scripts, m.i, m.log, Ran(m.i, k, n));
  }

  lemma {:induction false} CompleteIsSkipped<D(!new)>(scripts: seq<Script<D>>, maxPasses: nat, m: Machine<D>)
    requires m.i < |scripts| && m.pc == Begin && IsFinished(scripts, m.db, m.i)
    ensures Next(scripts, maxPasses, m) == m.(i := m.i + 1)
  {
  }

  class TenantDb<D(!new)> {
    var data: D
    var ledger: map<string, Row>
    var barrier: Option<string>

    ghost function Snapshot(): Db<D>
      reads this
    {
      Db(data, ledger, barrier)
    }

    constructor (data: D)
      ensures Snapshot() == Fresh(data).db
    {
      this.data, this.ledger, this.barrier := data, map[], None;
    }

    /** One pass: the SQL of the step, and then the ledger's count. */
    method RunPass(script: Script<D>, k: nat, ghost pass: nat, maxPasses: nat, lives: nat,
                   ghost scripts: seq<Script<D>>, ghost m0: Machine<D>)
      returns (died: bool, n: nat, left: nat, ghost m: Machine<D>)
      requires m0.i < |scripts| && scripts[m0.i] == script && k < |script.steps| && script.steps[k].repeatUntilZero
      requires Snapshot() == m0.db && script.name in ledger && m0.pc == At(k, pass)
      modifies this
      ensures left <= lives && (died ==> left == 0)
      ensures m == After(scripts, maxPasses, m0, lives - left) && Snapshot() == m.db
      ensures !died ==> n == script.steps[k].run(old(data)).1 && script.name in ledger && m.i == m0.i
      ensures !died ==> m.pc == if n == 0 || pass >= maxPasses then Mark(k) else At(k, pass + 1)
      ensures !died ==> m == Next(scripts, maxPasses, Next(scripts, maxPasses, m0))
    {
      hide After;
      died, n, left, m := true, 0, lives, m0;
      AfterNone(scripts, maxPasses, m0);
      if left == 0 { return; }
      AfterOneMore(scripts, maxPasses, m0, 0);
      left, m := left - 1, Next(scripts, maxPasses, m);
      var (data', rows) := script.steps[k].run(data);
      data, n := data', rows;

      if left == 0 { return; }
      AfterOneMore(scripts, maxPasses, m0, 1);
      left, m := left - 1, Next(scripts, maxPasses, m);
      ledger := ledger[script.name := ledger[script.name].(rowsDone := ledger[script.name].rowsDone + n)];
      died := false;
    }

    /** The passes of one repeated step, at most `maxPasses`, until one reports no rows. */
    method RunPassesOf(script: Script<D>, k: nat, maxPasses: nat, lives: nat,
                       ghost scripts: seq<Script<D>>, ghost m0: Machine<D>)
      returns (died: bool, rows: nat, left: nat, ghost m: Machine<D>)
      requires m0.i < |scripts| && scripts[m0.i] == script && k < |script.steps| && script.steps[k].repeatUntilZero
      requires Snapshot() == m0.db && script.name in ledger && m0.pc == Enter(script.steps, maxPasses, k)
      modifies this
      ensures left <= lives && (died ==> left == 0)
      ensures m == After(scripts, maxPasses, m0, lives - left) && Snapshot() == m.db
      ensures !died ==> m.pc == Mark(k) && script.name in ledger && Passed(scripts, m0, m, rows)
    {
      hide After;
      hide Next;
      hide Passed;
      left, m, rows, died := lives, m0, 0, true;
      AfterNone(scripts, maxPasses, m0);
      NothingPassed(scripts, m0);
      assert m0.pc == if 1 <= maxPasses then At(k, 1) else Mark(k);
      var pass := 1;
      while pass <= maxPasses
        invariant 1 <= pass <= maxPasses + 1 && left <= lives
        invariant m == After(scripts, maxPasses, m0, lives - left) && Snapshot() == m.db
        invariant m.i == m0.i && script.name in ledger
        invariant m.pc == if pass <= maxPasses then At(k, pass) else Mark(k)
        invariant Passed(scripts, m0, m, rows)
      {
        var n;
        ghost var m1, used := m, lives - left;
        var lives' := left;
        died, n, left, m := RunPass(script, k, pass, maxPasses, lives', scripts, m1);
        AfterMore(scripts, maxPasses, m0, used, lives' - left);
        if died { return; }
        OnePass(scripts, maxPasses, m0, m1, k, pass, rows, m);
        rows := rows + n;
        if n == 0 {
          break;
        }
        pass := pass + 1;
      }
      died := false;
    }

    /** One step that is not skipped: its SQL, and then the ledger's cursor. */
    method RunStep(script: Script<D>, k: nat, maxPasses: nat, lives: nat,
                   ghost scripts: seq<Script<D>>, ghost m0: Machine<D>)
      returns (died: bool, rows: nat, left: nat, ghost m: Machine<D>)
      requires m0.i < |scripts| && scripts[m0.i] == script && k < |script.steps|
      requires Snapshot() == m0.db && script.name in ledger && m0.pc == Enter(script.steps, maxPasses, k)
      modifies this
      ensures left <= lives && (died ==> left == 0)
      ensures m == After(scripts, maxPasses, m0, lives - left) && Snapshot() == m.db
      ensures !died ==> m.i == m0.i && m.pc == Enter(script.steps, maxPasses, k + 1) && script.name in ledger
      ensures !died ==> MarksIn(m.log) == MarksIn(m0.log) + 1 && RowsIn(m.log) == RowsIn(m0.log) + rows
      ensures !died ==> var repeated := if script.steps[k].repeatUntilZero then rows else 0;
        && RepeatedRows(scripts, m0.i, m.log) == RepeatedRows(scripts, m0.i, m0.log) + repeated
        && var row := old(ledger)[script.name];
           ledger == old(ledger)[script.name :=
             row.(rowsDone := row.rowsDone + repeated, cursor := Some(script.steps[k].name))]
    {
      hide RepeatedRows;
      hide After;
      hide RowsIn;
      hide MarksIn;
      var step := script.steps[k];
      if step.repeatUntilZero {
        died, rows, left, m := RunPassesOf(script, k, maxPasses, lives, scripts, m0);
        if died { return; }
      } else {
        died, rows, left, m := true, 0, lives, m0;
        AfterNone(scripts, maxPasses, m0);
        if left == 0 { return; }
        AfterOneMore(scripts, maxPasses, m0, 0);
        var (data', n) := step.run(data);
        CountsOfSnoc(m.log, Ran(m.i, k, n));
        RepeatedRowsSnoc(scripts, m0.i, m.log, Ran(m.i, k, n));
        left, m := left - 1, Next(scripts, maxPasses, m);
        data := data';
        rows := n;
      }
      died := true;
      if left == 0 { return; }
      AfterOneMore(scripts, maxPasses, m0, lives - left);
      CountsOfSnoc(m.log, Marked(m.i, k));
      RepeatedRowsSnoc(scripts, m0.i, m.log, Marked(m.i, k));
      left, m := left - 1, Next(scripts, maxPasses, m);
      ledger := ledger[script.name := ledger[script.name].(cursor := Some(step.name))];
      died := false;
    }

    /** The loop over the steps: skip through the cursor, then run the rest. */
    method RunSteps(script: Script<D>, doneUpTo: Option<string>, maxPasses: nat, lives: nat,
                    ghost scripts: seq<Script<D>>, ghost m0: Machine<D>)
      returns (died: bool, stepsRun: nat, stepsSkipped: nat, rowsAffected: nat, left: nat, ghost m: Machine<D>)
      requires m0.i < |scripts| && scripts[m0.i] == script
      requires Snapshot() == m0.db && script.name in ledger
      requires m0.pc == Enter(script.steps, maxPasses, ResumeAt(script.steps, doneUpTo))
      modifies this
      ensures left <= lives && (died ==> left == 0)
      ensures m == After(scripts, maxPasses, m0, lives - left) && Snapshot() == m.db
      ensures !died ==> m.i == m0.i && m.pc == Finish && script.name in ledger
      ensures !died ==> stepsRun + stepsSkipped == |script.steps|
      ensures !died ==> MarksIn(m.log) == MarksIn(m0.log) + stepsRun && RowsIn(m.log) == RowsIn(m0.log) + rowsAffected
      ensures !died ==> Worked(scripts, m0.i, old(ledger), ledger, m0.log, m.log, stepsRun, |script.steps|)
    {
      hide RepeatedRows;
      hide Worked;
      hide After;
      hide RowsIn;
      hide MarksIn;
      hide Next;
      hide ResumeAt;
      hide StandsAt;
      hide Enter;
      left, m := lives, m0;
      AfterNone(scripts, maxPasses, m0);
      NothingWorked(scripts, m0.i, ledger, m0.log);
      var resuming := doneUpTo.Some?;
      stepsRun, stepsSkipped, rowsAffected := 0, 0, 0;
      var k := 0;
      StandsAtStart(script.steps, maxPasses, doneUpTo);
      while k < |script.steps|
        invariant 0 <= k <= |script.steps| && left <= lives
        invariant m == After(scripts, maxPasses, m0, lives - left)
        invariant Snapshot() == m.db && m.i == m0.i && script.name in ledger
        invariant resuming ==> doneUpTo.Some?
        invariant StandsAt(script.steps, maxPasses, m.pc, if resuming then doneUpTo else None, k)
        invariant stepsRun + stepsSkipped == k
        invariant MarksIn(m.log) == MarksIn(m0.log) + stepsRun
        invariant RowsIn(m.log) == RowsIn(m0.log) + rowsAffected
        invariant Worked(scripts, m0.i, old(ledger), ledger, m0.log, m.log, stepsRun, k)
        invariant resuming ==> stepsRun == 0
      {
        if resuming {
          SkipOne(script.steps, maxPasses, m.pc, doneUpTo.value, k);
          SkippedWorked(scripts, m0.i, old(ledger), ledger, m0.log, m.log, k);
          stepsSkipped := stepsSkipped + 1;
          if script.steps[k].name == doneUpTo.value {
            resuming := false;
          }
          k := k + 1;
          continue;
        }
        var rows;
        ghost var used, m1, ledger1 := lives - left, m, ledger;
        var lives' := left;
        NotSkipping(script.steps, maxPasses, m.pc, k);
        died, rows, left, m := RunStep(script, k, maxPasses, lives', scripts, m1);
        AfterMore(scripts, maxPasses, m0, used, lives' - left);
        if died { return; }
        StepWorked(scripts, m0.i, old(ledger), ledger1, ledger, m0.log, m1.log, m.log, stepsRun, k,
                   if script.steps[k].repeatUntilZero then rows else 0);
        NotSkipping(script.steps, maxPasses, m.pc, k + 1);
        rowsAffected := rowsAffected + rows;
        stepsRun := stepsRun + 1;
        k := k + 1;
      }
      StandsAtEnd(script.steps, maxPasses, m.pc, if resuming then doneUpTo else None);
      died := false;
    }

    /** The ledger row and the barrier, before the first step. */
    method OpenScript(script: Script<D>, maxPasses: nat, lives: nat, ghost scripts: seq<Script<D>>, ghost m0: Machine<D>)
      returns (died: bool, doneUpTo: Option<string>, left: nat, ghost m: Machine<D>)
      requires m0.i < |scripts| && scripts[m0.i] == script && m0.pc == Begin && Snapshot() == m0.db
      requires !(script.name in ledger && ledger[script.name].finished)
      modifies this
      ensures left <= lives && (died ==> left == 0)
      ensures m == After(scripts, maxPasses, m0, lives - left) && Snapshot() == m.db
      ensures !died ==> m.i == m0.i && script.name in ledger && m.log == m0.log
      ensures !died ==> m.pc == Enter(script.steps, maxPasses, ResumeAt(script.steps, doneUpTo))
      ensures !died ==> ledger == old(ledger)[script.name :=
        if script.name in old(ledger)
        then old(ledger)[script.name].(attempts := old(ledger)[script.name].attempts + 1, failed := false)
        else Row(false, None, 1, 0, false)]
    {
      hide After;
      died, left, m := true, lives, m0;
      AfterNone(scripts, maxPasses, m0);
      doneUpTo := if script.name in ledger then ledger[script.name].cursor else None;
      if left == 0 { return; }
      AfterOneMore(scripts, maxPasses, m0, 0);
      left, m := left - 1, Next(scripts, maxPasses, m);
      if script.name in ledger {
        ledger := ledger[script.name := ledger[script.name].(attempts := ledger[script.name].attempts + 1, failed := false)];
      } else {
        ledger := ledger[script.name := Row(false, None, 1, 0, false)];
      }

      if left == 0 { return; }
      AfterOneMore(scripts, maxPasses, m0, 1);
      left, m := left - 1, Next(scripts, maxPasses, m);
      barrier := Some(script.name);
      died := false;
    }

    /** The end of the row and the barrier, after the last step. */
    method CloseScript(script: Script<D>, maxPasses: nat, lives: nat, ghost scripts: seq<Script<D>>, ghost m0: Machine<D>)
      returns (died: bool, left: nat, ghost m: Machine<D>)
      requires m0.i < |scripts| && scripts[m0.i] == script && m0.pc == Finish && Snapshot() == m0.db
      requires script.name in ledger
      modifies this
      ensures left <= lives && (died ==> left == 0)
      ensures m == After(scripts, maxPasses, m0, lives - left) && Snapshot() == m.db
      ensures !died ==> m.i == m0.i + 1 && m.pc == Begin && barrier == None
      ensures !died ==> MarksIn(m.log) == MarksIn(m0.log) && RowsIn(m.log) == RowsIn(m0.log)
      ensures !died ==> RepeatedRows(scripts, m0.i, m.log) == RepeatedRows(scripts, m0.i, m0.log)
      ensures !died ==> ledger == old(ledger)[script.name := old(ledger)[script.name].(finished := true, failed := false)]
    {
      hide RepeatedRows;
      hide After;
      hide MarksIn;
      hide RowsIn;
      died, left, m := true, lives, m0;
      AfterNone(scripts, maxPasses, m0);
      if left == 0 { return; }
      AfterOneMore(scripts, maxPasses, m0, 0);
      left, m := left - 1, Next(scripts, maxPasses, m);
      ledger := ledger[script.name := ledger[script.name].(finished := true, failed := false)];

      if left == 0 { return; }
      AfterOneMore(scripts, maxPasses, m0, 1);
      CountsOfSnoc(m.log, Lowered(m.i));
      RepeatedRowsSnoc(scripts, m0.i, m.log, Lowered(m.i));
      left, m := left - 1, Next(scripts, maxPasses, m);
      barrier := None;
      died := false;
    }

    /**
     Run or resume one script with a process that lives for `lives` statements. What it leaves
     is what `lives - left` statements of the track leave, and a completed run counts its work.
     */
    method RunOnlineScript(script: Script<D>, maxPasses: nat, lives: nat,
                           ghost scripts: seq<Script<D>>, ghost i: nat, ghost log: seq<Event>)
      returns (out: Outcome, left: nat, ghost m: Machine<D>)
      requires i < |scripts| && scripts[i] == script
      modifies this
      ensures left <= lives && (out.Died? ==> left == 0)
      ensures m == After(scripts, maxPasses, Machine(old(Snapshot()), i, Begin, log), lives - left)
      ensures Snapshot() == m.db
      ensures out.Complete? ==> m.i == i + 1 && m.pc == Begin
      ensures out.Complete? ==> out.stepsRun + out.stepsSkipped == |script.steps|
      ensures out.Complete? ==> out.stepsRun == MarksIn(m.log) - MarksIn(log)
      ensures out.Complete? ==> out.rowsAffected == RowsIn(m.log) - RowsIn(log)
      ensures out.Complete? ==> (out.alreadyComplete <==> IsFinished(scripts, old(Snapshot()), i))
      ensures out.Complete? && !out.alreadyComplete ==> barrier == None
      ensures out.Complete? ==> RepeatedRows(scripts, i, m.log) >= RepeatedRows(scripts, i, log)
      ensures out.Complete? && out.alreadyComplete ==> ledger == old(ledger) && m.log == log
      ensures out.Complete? && !out.alreadyComplete ==>
        var row := RowOf(old(Snapshot()), script.name);
        ledger == old(ledger)[script.name := Row(
          true, if out.stepsRun > 0 then Some(script.steps[|script.steps| - 1].name) else row.cursor,
          row.attempts + 1, row.rowsDone + (RepeatedRows(scripts, i, m.log) - RepeatedRows(scripts, i, log)), false)]
    {
      hide Next;
      hide Enter;
      hide ResumeAt;
      hide RepeatedRows;
      hide After;
      hide RowsIn;
      hide MarksIn;
      ghost var m0 := Machine(Snapshot(), i, Begin, log);
      left, m, out := lives, m0, Died;
      AfterNone(scripts, maxPasses, m0);
      if left == 0 { return; }
      if script.name in ledger && ledger[script.name].finished {
        AfterOneMore(scripts, maxPasses, m0, 0);
        CompleteIsSkipped(scripts, maxPasses, m);
        left, m := left - 1, Next(scripts, maxPasses, m);
        out := Complete(0, |script.steps|, 0, true);
        return;
      }
      var died, doneUpTo, stepsRun, stepsSkipped, rowsAffected;
      died, doneUpTo, left, m := OpenScript(script, maxPasses, lives, scripts, m0);
      if died { return; }

      ghost var used, m1 := lives - left, m;
      var lives' := left;
      died, stepsRun, stepsSkipped, rowsAffected, left, m :=
        RunSteps(script, doneUpTo, maxPasses, lives', scripts, m1);
      AfterMore(scripts, maxPasses, m0, used, lives' - left);
      if died { return; }

      used, m1 := lives - left, m;
      lives' := left;
      died, left, m := CloseScript(script, maxPasses, lives', scripts, m1);
      AfterMore(scripts, maxPasses, m0, used, lives' - left);
      if died { return; }
      out := Complete(stepsRun, stepsSkipped, rowsAffected, false);
    }

    /** The driver's loop over one tenant's scripts, in order, until the process stops. */
    method RunScripts(scripts: seq<Script<D>>, maxPasses: nat, lives: nat)
      returns (left: nat, ghost m: Machine<D>)
      modifies this
      ensures left <= lives
      ensures m == After(scripts, maxPasses, Machine(old(Snapshot()), 0, Begin, []), lives - left)
      ensures Snapshot() == m.db
      ensures left > 0 ==> m.i == |scripts| && m.pc == Begin
    {
      hide After;
      ghost var m0 := Machine(Snapshot(), 0, Begin, []);
      left := lives;
      m := m0;
      AfterNone(scripts, maxPasses, m0);
      for i := 0 to |scripts|
        invariant left <= lives && m == After(scripts, maxPasses, m0, lives - left)
        invariant Snapshot() == m.db && m.i == i && m.pc == Begin
      {
        var out;
        ghost var before, used := m, lives - left;
        var lives' := left;
        out, left, m := RunOnlineScript(scripts[i], maxPasses, lives', scripts, i, m.log);
        AfterMore(scripts, maxPasses, m0, used, lives' - left);
        assert before == Machine(before.db, i, Begin, before.log);
        if out.Died? {
          return;
        }
      }
    }
  }
}
