/**
 What the ledger of the online track says of the work, over every history of crashes and reruns:
 the columns `rowsDone`, `attempts` and `lastError` of scripts/_lib/online-track.ts.
 */
module OnlineLedger {
  import opened Basics
  import opened OnlineTrack

  function RowsDone<D>(scripts: seq<Script<D>>, db: Db<D>, i: nat): nat
    requires i < |scripts|
  {
    RowOf(db, scripts[i].name).rowsDone
  }

  /** The rows of a pass of script `i` that was executed and is about to be recorded. */
  function Pending<D>(m: Machine<D>, i: nat): nat {
    if m.i == i && m.pc.Counted? then m.pc.rows else 0
  }

  /** The rows of the passes after which the process stopped before recording them. */
  function Lost<D>(scripts: seq<Script<D>>, maxPasses: nat, start: D, actions: seq<Action>, i: nat): nat
    decreases |actions|
  {
    if actions == [] then 0
    else
      var before := actions[..|actions| - 1];
      Lost(scripts, maxPasses, start, before, i)
      + if actions[|actions| - 1].Stop? then Pending(Play(scripts, maxPasses, Fresh(start), before), i) else 0
  }

  lemma {:induction false} StatementCountsRows<D(!new)>(scripts: seq<Script<D>>, maxPasses: nat, m: Machine<D>, i: nat)
    requires Distinct(scripts) && i < |scripts|
    ensures var m' := Next(scripts, maxPasses, m);
      && RowsDone(scripts, m'.db, i) + Pending(m', i) + RepeatedRows(scripts, i, m.log)
         == RowsDone(scripts, m.db, i) + Pending(m, i) + RepeatedRows(scripts, i, m'.log)
      && RowsDone(scripts, m'.db, i) >= RowsDone(scripts, m.db, i)
  {
    hide RepeatedRows;
    hide ResumeAt;
    hide DistinctSteps;
    var m' := Next(scripts, maxPasses, m);
    if m'.log != m.log {
      var e := m'.log[|m'.log| - 1];
      assert m'.log == m.log + [e];
      RepeatedRowsSnoc(scripts, i, m.log, e);
    }
  }

  lemma {:induction false} StopLosesPending<D(!new)>(scripts: seq<Script<D>>, maxPasses: nat, m: Machine<D>, i: nat, recorded: bool)
    requires i < |scripts|
    ensures var m' := Act(scripts, maxPasses, m, Stop(recorded));
      && RowsDone(scripts, m'.db, i) == RowsDone(scripts, m.db, i) && Pending(m', i) == 0 && m'.log == m.log
  {
  }

  /** No statement, crash or failure lowers `rowsDone`. */
  lemma {:induction false} RowsDoneNeverFalls<D(!new)>(
    scripts: seq<Script<D>>, maxPasses: nat, start: D, a: seq<Action>, b: seq<Action>, i: nat)
    requires Distinct(scripts) && i < |scripts|
    ensures RowsDone(scripts, Play(scripts, maxPasses, Fresh(start), a + b).db, i)
            >= RowsDone(scripts, Play(scripts, maxPasses, Fresh(start), a).db, i)
    decreases |b|
  {
    hide Distinct;
    hide RowsDone;
    hide Pending;
    hide RepeatedRows;
    hide Next;
    if b == [] {
      assert a + b == a;
    } else {
      var init, x := a + b[..|b| - 1], b[|b| - 1];
      RowsDoneNeverFalls(scripts, maxPasses, start, a, b[..|b| - 1], i);
      assert a + b == init + [x];
      PlayOne(scripts, maxPasses, Fresh(start), init, x);
      var m := Play(scripts, maxPasses, Fresh(start), init);
      if x.Stop? {
        StopLosesPending(scripts, maxPasses, m, i, x.recorded);
      } else {
        StatementCountsRows(scripts, maxPasses, m, i);
      }
    }
  }

  /**
   Every row a repeated step ever reported is accounted for: it is in `rowsDone`, or its pass has
   just been executed, or the process stopped between the pass and its record.
   */
  lemma {:induction false} RowsAreConserved<D(!new)>(
    scripts: seq<Script<D>>, maxPasses: nat, start: D, actions: seq<Action>, i: nat)
    requires Distinct(scripts) && i < |scripts|
    ensures var m := Play(scripts, maxPasses, Fresh(start), actions);
      RepeatedRows(scripts, i, m.log)
      == RowsDone(scripts, m.db, i) + Pending(m, i) + Lost(scripts, maxPasses, start, actions, i)
    decreases |actions|
  {
    hide Next;
    hide Distinct;
    hide Stopped;
    if actions != [] {
      hide RowsDone;
      hide Pending;
      hide RepeatedRows;
      var before, a := actions[..|actions| - 1], actions[|actions| - 1];
      RowsAreConserved(scripts, maxPasses, start, before, i);
      var m := Play(scripts, maxPasses, Fresh(start), before);
      if a.Stop? {
        StopLosesPending(scripts, maxPasses, m, i, a.recorded);
      } else {
        StatementCountsRows(scripts, maxPasses, m, i);
      }
    }
  }

  /** Whatever happened, the ledger claims no row that no pass reported. */
  lemma {:induction false} RowsDoneIsNeverTooMuch<D(!new)>(
    scripts: seq<Script<D>>, maxPasses: nat, start: D, actions: seq<Action>, i: nat)
    requires Distinct(scripts) && i < |scripts|
    ensures var m := Play(scripts, maxPasses, Fresh(start), actions);
      RowsDone(scripts, m.db, i) <= RepeatedRows(scripts, i, m.log)
  {
    RowsAreConserved(scripts, maxPasses, start, actions, i);
  }

  // ---------------------------------------------------------------- recorded failures

  /** The process stands inside the steps of script `i`, where the runner catches errors. */
  predicate InsideSteps<D>(m: Machine<D>, i: nat) {
    m.i == i && (m.pc.At? || m.pc.Counted? || m.pc.Mark?)
  }

  lemma {:induction false} ErrorInside<D(!new)>(scripts: seq<Script<D>>, maxPasses: nat, m: Machine<D>, j: nat)
    requires Order(scripts, m, j) && m.i < |scripts| && InsideSteps(m, m.i)
    ensures IsUnfinished(scripts, m.db, m.i)
    ensures var name := scripts[m.i].name;
      Act(scripts, maxPasses, m, Stop(true)).db
      == m.db.(ledger := m.db.ledger[name := m.db.ledger[name].(failed := true)])
  {
    hide Log;
    hide BarrierUp;
    hide LastLowered;
    hide ResumeAt;
    hide CursorKnown;
  }

  /** An error there is left in the row of the script, and in nothing else; without one a stop leaves nothing. */
  lemma {:induction false} ErrorIsRecorded<D(!new)>(
    scripts: seq<Script<D>>, maxPasses: nat, start: D, actions: seq<Action>, i: nat)
    requires Distinct(scripts) && i < |scripts|
    requires InsideSteps(Play(scripts, maxPasses, Fresh(start), actions), i)
    ensures var db := Play(scripts, maxPasses, Fresh(start), actions).db;
      var name := scripts[i].name;
      && IsUnfinished(scripts, db, i)
      && Play(scripts, maxPasses, Fresh(start), actions + [Stop(false)]).db == db
      && Play(scripts, maxPasses, Fresh(start), actions + [Stop(true)]).db
         == db.(ledger := db.ledger[name := db.ledger[name].(failed := true)])
  {
    hide Order;
    hide Distinct;
    var m := Play(scripts, maxPasses, Fresh(start), actions);
    var j := PlayKeeps(scripts, maxPasses, start, actions);
    ErrorInside(scripts, maxPasses, m, j);
    PlayOne(scripts, maxPasses, Fresh(start), actions, Stop(true));
    PlayOne(scripts, maxPasses, Fresh(start), actions, Stop(false));
  }

  ghost predicate NoFinishedFailure<D(!new)>(scripts: seq<Script<D>>, db: Db<D>) {
    forall i :: 0 <= i < |scripts| && IsFinished(scripts, db, i) ==> !db.ledger[scripts[i].name].failed
  }

  lemma {:induction false} ActClearsFailure<D(!new)>(scripts: seq<Script<D>>, maxPasses: nat, m: Machine<D>, j: nat, a: Action)
    requires Distinct(scripts) && Order(scripts, m, j) && NoFinishedFailure(scripts, m.db)
    ensures NoFinishedFailure(scripts, Act(scripts, maxPasses, m, a).db)
  {
    hide Log;
    hide BarrierUp;
    hide LastLowered;
    hide ResumeAt;
    hide CursorKnown;
    hide DistinctSteps;
  }

  /** A script whose end is on record has no error on record, after any crashes, failures and reruns. */
  lemma {:induction false} FinishedMeansNoError<D(!new)>(
    scripts: seq<Script<D>>, maxPasses: nat, start: D, actions: seq<Action>)
    requires Distinct(scripts)
    ensures NoFinishedFailure(scripts, Play(scripts, maxPasses, Fresh(start), actions).db)
    decreases |actions|
  {
    if actions != [] {
      hide Order;
      hide Distinct;
      hide NoFinishedFailure;
      hide Act;
      var before, a := actions[..|actions| - 1], actions[|actions| - 1];
      FinishedMeansNoError(scripts, maxPasses, start, before);
      var j := PlayKeeps(scripts, maxPasses, start, before);
      ActClearsFailure(scripts, maxPasses, Play(scripts, maxPasses, Fresh(start), before), j, a);
    }
  }

  // ---------------------------------------------------------------- the passes of a repeated step

  /**
   Passes until zero, in terms of plain executions: some number of them, the last of which alone
   reports no rows, or as many as are allowed when none does.
   */
  lemma {:induction false} DrainStopsAtTheFirstZero<D(!new)>(step: Step<D>, passes: nat, data: D) returns (n: nat)
    ensures n <= passes && Drain(step, passes, data) == Again(step, n, data)
    ensures forall q: nat :: q + 1 < n ==> step.run(Again(step, q, data)).1 > 0
    ensures n < passes ==> n > 0 && step.run(Again(step, n - 1, data)).1 == 0
    decreases passes
  {
    if passes == 0 {
      n := 0;
    } else {
      var (data', rows) := step.run(data);
      assert Again(step, 1, data) == Again(step, 0, data') == data';
      assert Again(step, 0, data) == data;
      if rows == 0 {
        n := 1;
      } else {
        var n' := DrainStopsAtTheFirstZero(step, passes - 1, data');
        n := n' + 1;
        forall q: nat | q + 1 < n
          ensures step.run(Again(step, q, data)).1 > 0
        {
          assert q > 0 ==> Again(step, q, data) == Again(step, q - 1, data');
        }
      }
    }
  }
}
