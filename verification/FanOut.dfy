/**
 The fan-out migration of scripts/tenant-migrate.ts: N cooperative workers on one queue, a
 ledger row for every tenant, and resuming a run that died.

 A label is what one worker does up to its next `await`. `taken`, `decided` and `migrations`
 are history: the tenants shifted off the queue, what was counted for them, and the calls of
 `migrateOne`.
 */
module FanOut {
  import opened Basics

  datatype Status = Planned | Running | Ok | Failed | Timeout | Skipped

  predicate Terminal(st: Status) {
    st.Ok? || st.Failed? || st.Timeout? || st.Skipped?
  }

  datatype Worker = Ready | Taken(t: nat) | Migrating(t: nat) | Recording(t: nat, st: Status) | Exited

  /** `barred`: the tenants whose online script is unfinished. */
  datatype Config = Config(plan: seq<nat>, alreadyOk: set<nat>, barred: set<nat>, force: bool, concurrency: nat)

  datatype State = State(
    queue: seq<nat>, workers: seq<Worker>, status: map<nat, Status>,
    ok: nat, failed: nat, skipped: nat, closed: bool, dead: bool,
    taken: seq<nat>, decided: map<nat, Status>, migrations: seq<nat>)

  /** `Step(w, st)`: worker `w` goes on; if it is migrating, `st` is the outcome. */
  datatype Label = Step(w: nat, st: Status) | Close | Die

  predicate Distinct(ts: seq<nat>) {
    forall i, j :: 0 <= i < j < |ts| ==> ts[i] != ts[j]
  }

  function Without(ts: seq<nat>, drop: set<nat>): seq<nat> {
    if ts == [] then []
    else (if ts[0] in drop then [] else [ts[0]]) + Without(ts[1..], drop)
  }

  /** What stays keeps its place: one tenant, and any two stretches of the plan. */
  lemma {:induction false} WithoutInOrder(a: seq<nat>, b: seq<nat>, drop: set<nat>, t: nat)
    ensures Without(a + b, drop) == Without(a, drop) + Without(b, drop)
    ensures Without([t], drop) == if t in drop then [] else [t]
  {
    if a == [] {
      assert a + b == b;
    } else {
      assert (a + b)[1..] == a[1..] + b;
      WithoutInOrder(a[1..], b, drop, t);
    }
  }

  function Queued(c: Config): seq<nat> {
    Without(c.plan, c.alreadyOk)
  }

  function Opened(c: Config): State {
    State(Queued(c), seq(c.concurrency, _ => Ready),
          map t | t in c.plan :: if t in c.alreadyOk then Skipped else Planned,
          0, 0, |c.alreadyOk|, false, false, [], map[], [])
  }

  predicate Blocked(c: Config, t: nat) {
    t in c.barred && !c.force
  }

  function Move(s: State, w: nat, to: Worker): State
    requires w < |s.workers|
  {
    s.(workers := s.workers[w := to])
  }

  /** The counters move before the row is marked. */
  function Count(s: State, t: nat, st: Status): State {
    s.(decided := s.decided[t := st],
       ok := s.ok + if st.Ok? then 1 else 0,
       failed := s.failed + if st.Failed? || st.Timeout? then 1 else 0,
       skipped := s.skipped + if st.Skipped? then 1 else 0)
  }

  function Advance(c: Config, s: State, w: nat, st: Status): Option<State>
    requires w < |s.workers|
  {
    match s.workers[w]
    case Ready =>
      if s.queue == [] then Some(Move(s, w, Exited))
      else Some(Move(s, w, Taken(s.queue[0])).(queue := s.queue[1..], taken := s.taken + [s.queue[0]]))
    case Taken(t) =>
      if Blocked(c, t) then Some(Move(Count(s, t, Skipped), w, Recording(t, Skipped)))
      else Some(Move(s, w, Migrating(t)).(status := s.status[t := Running], migrations := s.migrations + [t]))
    case Migrating(t) =>
      if st.Ok? || st.Failed? || st.Timeout? then Some(Move(Count(s, t, st), w, Recording(t, st))) else None
    case Recording(t, st') => Some(Move(s, w, Ready).(status := s.status[t := st']))
    case Exited => None
  }

  predicate AllExited(s: State) {
    forall w :: 0 <= w < |s.workers| ==> s.workers[w] == Exited
  }

  function Do(c: Config, s: State, l: Label): Option<State> {
    if s.dead || s.closed then None
    else
      match l
      case Step(w, st) => if w < |s.workers| then Advance(c, s, w, st) else None
      case Close => if AllExited(s) then Some(s.(closed := true)) else None
      case Die => Some(s.(dead := true))
  }

  function Run(c: Config, labels: seq<Label>): Option<State>
    decreases |labels|
  {
    if labels == [] then Some(Opened(c))
    else
      match Run(c, labels[..|labels| - 1])
      case None => None
      case Some(s) => Do(c, s, labels[|labels| - 1])
  }

  ghost predicate Reaches(c: Config, s: State) {
    exists labels: seq<Label> :: Run(c, labels) == Some(s)
  }

  // ---------------------------------------------------------------- the queue

  lemma {:induction false} WithoutIsFilter(ts: seq<nat>, drop: set<nat>)
    ensures forall t :: t in Without(ts, drop) <==> t in ts && t !in drop
    ensures Distinct(ts) ==> Distinct(Without(ts, drop))
  {
    if ts != [] {
      WithoutIsFilter(ts[1..], drop);
      assert ts == [ts[0]] + ts[1..];
      assert Distinct(ts) ==> ts[0] !in ts[1..];
    }
  }

  // ---------------------------------------------------------------- the invariant

  /** Who has tenant `t`. */
  predicate Holds(x: Worker, t: nat) {
    (x.Taken? || x.Migrating? || x.Recording?) && x.t == t
  }

  ghost predicate Held(s: State, t: nat) {
    exists w :: 0 <= w < |s.workers| && Holds(s.workers[w], t)
  }

  /** What a worker's position says about its tenant. */
  ghost predicate WorkerOk(c: Config, s: State, x: Worker) {
    match x
    case Taken(t) => t in s.taken && t in s.status && s.status[t] == Planned && t !in s.decided && t !in s.migrations
    case Migrating(t) => t in s.taken && t in s.status && s.status[t] == Running && t !in s.decided && t in s.migrations
    case Recording(t, st) =>
      && t in s.taken && t in s.status && t in s.decided && s.decided[t] == st && Terminal(st)
      && (if st.Skipped? then s.status[t] == Planned && Blocked(c, t) && t !in s.migrations
          else s.status[t] == Running && t in s.migrations)
    case _ => true
  }

  /** No two workers have the same tenant. */
  ghost predicate Apart(s: State) {
    forall v, w, t :: 0 <= v < w < |s.workers| && Holds(s.workers[v], t) ==> !Holds(s.workers[w], t)
  }

  /** A tenant no worker has any more is recorded as it was counted. */
  ghost predicate DoneOk(c: Config, s: State, t: nat) {
    && t in s.status && t in s.decided && s.status[t] == s.decided[t] && Terminal(s.status[t])
    && (s.status[t] == Skipped <==> t !in s.migrations)
    && (s.status[t] == Skipped ==> Blocked(c, t))
  }

  ghost predicate QueueOk(c: Config, s: State) {
    && s.taken + s.queue == Queued(c) && Distinct(s.taken + s.queue) && Distinct(s.migrations)
    && s.status.Keys == Members(c.plan)
    && (forall t :: t in s.queue ==> t in s.status && s.status[t] == Planned && t !in s.decided && t !in s.migrations)
    && (forall t :: t in c.plan && t in c.alreadyOk ==> s.status[t] == Skipped)
  }

  function Decided(s: State, sts: set<Status>): set<nat> {
    set t | t in s.decided && s.decided[t] in sts
  }

  ghost predicate CountsOk(c: Config, s: State) {
    && s.ok == |Decided(s, {Ok})|
    && s.failed == |Decided(s, {Failed, Timeout})|
    && s.skipped == |c.alreadyOk| + |Decided(s, {Skipped})|
  }

  ghost predicate BooksOk(c: Config, s: State) {
    && QueueOk(c, s) && CountsOk(c, s)
    && (forall t :: t in s.migrations ==> t in s.taken && !Blocked(c, t))
    && (forall t :: t in s.decided ==> t in s.taken && Terminal(s.decided[t]))
    && (forall w :: 0 <= w < |s.workers| && s.workers[w].Exited? ==> s.queue == [])
    && (s.closed ==> AllExited(s))
  }

  ghost predicate PoolOk(c: Config, s: State) {
    && Apart(s)
    && (forall w :: 0 <= w < |s.workers| ==> WorkerOk(c, s, s.workers[w]))
    && (forall t :: t in s.taken && !Held(s, t) ==> DoneOk(c, s, t))
  }

  ghost predicate Inv(c: Config, s: State) {
    BooksOk(c, s) && PoolOk(c, s)
  }

  lemma OpenedIsFine(c: Config)
    requires Distinct(c.plan)
    ensures Inv(c, Opened(c))
  {
    var s := Opened(c);
    WithoutIsFilter(c.plan, c.alreadyOk);
    assert s.taken + s.queue == Queued(c);
    assert Decided(s, {Ok}) == {} && Decided(s, {Failed, Timeout}) == {} && Decided(s, {Skipped}) == {};
  }

  lemma DecidedGrows(s: State, t: nat, st: Status, sts: set<Status>)
    requires t !in s.decided
    ensures |Decided(Count(s, t, st), sts)| == |Decided(s, sts)| + if st in sts then 1 else 0
  {
    assert Decided(Count(s, t, st), sts) == Decided(s, sts) + (if st in sts then {t} else {});
  }

  lemma CountKeeps(c: Config, s: State, t: nat, st: Status)
    requires CountsOk(c, s) && t !in s.decided
    ensures CountsOk(c, Count(s, t, st))
  {
    DecidedGrows(s, t, st, {Ok});
    DecidedGrows(s, t, st, {Failed, Timeout});
    DecidedGrows(s, t, st, {Skipped});
    hide Decided;
    hide Distinct;
    hide Queued;
  }

  lemma SameCounts(c: Config, a: State, b: State)
    requires a.decided == b.decided && a.ok == b.ok && a.failed == b.failed && a.skipped == b.skipped
    requires CountsOk(c, a)
    ensures CountsOk(c, b)
  {
    assert forall sts :: Decided(a, sts) == Decided(b, sts);
  }

  /** Worker `w` goes on, with nothing but tenant `t`. */
  ghost predicate About(s: State, w: nat, to: Worker, t: nat) {
    && w < |s.workers| && (Holds(s.workers[w], t) || !Held(s, t))
    && forall u :: u != t ==> !Holds(s.workers[w], u) && !Holds(to, u)
  }

  lemma OthersHeld(s: State, w: nat, to: Worker, t: nat)
    requires About(s, w, to, t)
    ensures forall u :: u != t ==> (Held(Move(s, w, to), u) <==> Held(s, u))
    ensures Holds(to, t) ==> Held(Move(s, w, to), t)
    ensures Apart(s) ==> Apart(Move(s, w, to))
  {
    var s' := Move(s, w, to);
    forall u | u != t
      ensures Held(s', u) <==> Held(s, u)
    {
      if v :| 0 <= v < |s.workers| && Holds(s.workers[v], u) {
        assert Holds(s'.workers[v], u);
      }
      if v :| 0 <= v < |s'.workers| && Holds(s'.workers[v], u) {
        assert Holds(s.workers[v], u);
      }
    }
    if Holds(to, t) {
      assert Holds(s'.workers[w], t);
    }
  }

  /** Nothing else happened. */
  ghost predicate Local(s: State, s': State, t: nat) {
    && (forall u :: u != t ==> (u in s.taken <==> u in s'.taken))
    && (forall u :: u != t ==> (u in s.migrations <==> u in s'.migrations))
    && (forall u :: u != t ==> (u in s.status <==> u in s'.status) && (u in s.status ==> s.status[u] == s'.status[u]))
    && (forall u :: u != t ==> (u in s.decided <==> u in s'.decided) && (u in s.decided ==> s.decided[u] == s'.decided[u]))
  }

  lemma LocalStep(c: Config, s: State, s': State, w: nat, t: nat)
    requires PoolOk(c, s) && w < |s.workers| == |s'.workers| && s'.workers == s.workers[w := s'.workers[w]]
    requires About(s, w, s'.workers[w], t) && Local(s, s', t)
    requires WorkerOk(c, s', s'.workers[w])
    requires Holds(s'.workers[w], t) || (t in s'.taken ==> DoneOk(c, s', t))
    ensures PoolOk(c, s')
  {
    OthersHeld(s, w, s'.workers[w], t);
    var moved := Move(s, w, s'.workers[w]);
    assert forall u :: Held(moved, u) <==> Held(s', u);
    forall v | 0 <= v < |s'.workers|
      ensures WorkerOk(c, s', s'.workers[v])
    {
      if v != w {
        assert WorkerOk(c, s, s.workers[v]);
        assert !Holds(s.workers[v], t);
      }
    }
    forall u | u in s'.taken && !Held(s', u)
      ensures DoneOk(c, s', u)
    {
      if u != t {
        assert DoneOk(c, s, u);
      }
    }
  }

  lemma ExitKeeps(c: Config, s: State, w: nat)
    requires Inv(c, s) && !s.closed && w < |s.workers| && s.workers[w] == Ready && s.queue == []
    ensures Inv(c, Move(s, w, Exited))
  {
    hide CountsOk;
    hide QueueOk;
    var s' := Move(s, w, Exited);
    SameCounts(c, s, s');
    SameQueue(c, s, s');
    forall t | Held(s, t)
      ensures Held(s', t)
    {
      var v :| 0 <= v < |s.workers| && Holds(s.workers[v], t);
      assert Holds(s'.workers[v], t);
    }
    hide Held;
  }

  lemma SameQueue(c: Config, s: State, s': State)
    requires QueueOk(c, s) && s' == s.(workers := s'.workers)
    ensures QueueOk(c, s')
  {
  }

  lemma TakenIsNew(s: State)
    requires Distinct(s.taken + s.queue) && s.queue != []
    ensures s.queue[0] !in s.taken && s.queue[0] !in s.queue[1..]
  {
    var t, all := s.queue[0], s.taken + s.queue;
    assert all[|s.taken|] == t;
    assert forall i :: 0 <= i < |s.taken| ==> all[i] == s.taken[i] && all[i] != t;
    assert forall i :: 0 < i < |s.queue| ==> all[|s.taken| + i] == s.queue[i];
  }

  lemma TakenIsGone(s: State, t: nat)
    requires Distinct(s.taken + s.queue) && t in s.taken
    ensures t !in s.queue
  {
    var i :| 0 <= i < |s.taken| && s.taken[i] == t;
    var all := s.taken + s.queue;
    assert all[i] == t;
    assert forall j :: 0 <= j < |s.queue| ==> s.queue[j] == all[|s.taken| + j];
  }

  lemma TakeKeeps(c: Config, s: State, w: nat)
    requires Inv(c, s) && !s.closed && w < |s.workers| && s.workers[w] == Ready && s.queue != []
    ensures Inv(c, Advance(c, s, w, Ok).value)
  {
    hide BooksOk;
    hide PoolOk;
    hide Advance;
    TakeBooks(c, s, w);
    TakePool(c, s, w);
  }

  lemma TakeBooks(c: Config, s: State, w: nat)
    requires BooksOk(c, s) && !s.closed && w < |s.workers| && s.workers[w] == Ready && s.queue != []
    ensures BooksOk(c, Advance(c, s, w, Ok).value)
  {
    hide Decided;
    hide Queued;
    hide CountsOk;
    var s' := Advance(c, s, w, Ok).value;
    assert s'.taken + s'.queue == s.taken + s.queue;
    SameCounts(c, s, s');
  }

  lemma TakePool(c: Config, s: State, w: nat)
    requires BooksOk(c, s) && PoolOk(c, s) && w < |s.workers| && s.workers[w] == Ready && s.queue != []
    ensures PoolOk(c, Advance(c, s, w, Ok).value)
  {
    hide CountsOk;
    hide Queued;
    hide DoneOk;
    var t, s' := s.queue[0], Advance(c, s, w, Ok).value;
    TakenIsNew(s);
    assert !Held(s, t) by {
      assert forall x :: WorkerOk(c, s, x) && Holds(x, t) ==> t in s.taken;
    }
    hide Apart;
    hide Held;
    LocalStep(c, s, s', w, t);
  }

  /** The steps that move a counter; the other two mark a row. */
  predicate Counting(c: Config, x: Worker) {
    (x.Taken? && Blocked(c, x.t)) || x.Migrating?
  }

  lemma CountingBooks(c: Config, s: State, w: nat, st: Status)
    requires BooksOk(c, s) && !s.closed && w < |s.workers| && Advance(c, s, w, st).Some?
    requires Counting(c, s.workers[w]) && WorkerOk(c, s, s.workers[w])
    ensures BooksOk(c, Advance(c, s, w, st).value)
  {
    hide CountsOk;
    hide Distinct;
    hide Queued;
    var t := s.workers[w].t;
    var outcome := if s.workers[w].Taken? then Skipped else st;
    TakenIsGone(s, t);
    CountKeeps(c, s, t, outcome);
    SameCounts(c, Count(s, t, outcome), Advance(c, s, w, st).value);
  }

  lemma MarkingBooks(c: Config, s: State, w: nat, st: Status)
    requires BooksOk(c, s) && !s.closed && w < |s.workers| && Advance(c, s, w, st).Some?
    requires !s.workers[w].Ready? && !Counting(c, s.workers[w]) && WorkerOk(c, s, s.workers[w])
    ensures BooksOk(c, Advance(c, s, w, st).value)
  {
    hide Queued;
    hide CountsOk;
    var t, s' := s.workers[w].t, Advance(c, s, w, st).value;
    TakenIsGone(s, t);
    SameCounts(c, s, s');
    assert Distinct(s'.migrations);
    hide Distinct;
  }

  lemma CountingPool(c: Config, s: State, w: nat, st: Status)
    requires PoolOk(c, s) && w < |s.workers| && Advance(c, s, w, st).Some? && Counting(c, s.workers[w])
    ensures PoolOk(c, Advance(c, s, w, st).value)
  {
    hide DoneOk;
    hide Held;
    hide Apart;
    assert WorkerOk(c, s, s.workers[w]);
    LocalStep(c, s, Advance(c, s, w, st).value, w, s.workers[w].t);
  }

  lemma MarkingPool(c: Config, s: State, w: nat, st: Status)
    requires PoolOk(c, s) && w < |s.workers| && Advance(c, s, w, st).Some?
    requires !s.workers[w].Ready? && !Counting(c, s.workers[w])
    ensures PoolOk(c, Advance(c, s, w, st).value)
  {
    hide DoneOk;
    hide Held;
    hide Apart;
    assert WorkerOk(c, s, s.workers[w]);
    if s.workers[w].Recording? {
      RecordedIsDone(c, s, w, st);
    }
    LocalStep(c, s, Advance(c, s, w, st).value, w, s.workers[w].t);
  }

  lemma RecordedIsDone(c: Config, s: State, w: nat, st: Status)
    requires w < |s.workers| && s.workers[w].Recording? && WorkerOk(c, s, s.workers[w])
    ensures DoneOk(c, Advance(c, s, w, st).value, s.workers[w].t)
  {
  }

  lemma StepKeeps(c: Config, s: State, w: nat, st: Status)
    requires Inv(c, s) && !s.closed && w < |s.workers| && Advance(c, s, w, st).Some?
    ensures Inv(c, Advance(c, s, w, st).value)
  {
    if s.workers[w].Ready? {
      if s.queue == [] {
        ExitKeeps(c, s, w);
      } else {
        TakeKeeps(c, s, w);
      }
      hide BooksOk;
      hide PoolOk;
    } else {
      assert WorkerOk(c, s, s.workers[w]);
      hide BooksOk;
      hide PoolOk;
      hide WorkerOk;
      hide Advance;
      if Counting(c, s.workers[w]) {
        CountingBooks(c, s, w, st);
        CountingPool(c, s, w, st);
      } else {
        MarkingBooks(c, s, w, st);
        MarkingPool(c, s, w, st);
      }
    }
  }

  lemma DoKeeps(c: Config, s: State, l: Label)
    requires Inv(c, s) && Do(c, s, l).Some?
    ensures Inv(c, Do(c, s, l).value)
  {
    hide Advance;
    hide BooksOk;
    hide PoolOk;
    if l.Step? {
      StepKeeps(c, s, l.w, l.st);
    } else {
      EndKeeps(c, s, l);
    }
  }

  lemma EndKeeps(c: Config, s: State, l: Label)
    requires Inv(c, s) && !l.Step? && Do(c, s, l).Some?
    ensures Inv(c, Do(c, s, l).value)
  {
    hide Advance;
    EndPool(c, s, Do(c, s, l).value);
    hide PoolOk;
  }

  lemma EndPool(c: Config, s: State, s': State)
    requires PoolOk(c, s) && s' == s.(closed := s'.closed, dead := s'.dead)
    ensures PoolOk(c, s')
  {
    assert forall t :: Held(s', t) <==> Held(s, t);
    assert forall x :: WorkerOk(c, s, x) <==> WorkerOk(c, s', x);
    assert forall t :: DoneOk(c, s, t) <==> DoneOk(c, s', t);
    hide Held;
    hide WorkerOk;
    hide DoneOk;
  }

  lemma {:induction false} RunKeeps(c: Config, labels: seq<Label>)
    requires Distinct(c.plan) && Run(c, labels).Some?
    ensures Inv(c, Run(c, labels).value) && |Run(c, labels).value.workers| == c.concurrency
    decreases |labels|
  {
    hide Inv;
    if labels == [] {
      OpenedIsFine(c);
    } else {
      RunKeeps(c, labels[..|labels| - 1]);
      DoKeeps(c, Run(c, labels[..|labels| - 1]).value, labels[|labels| - 1]);
    }
  }

  // ---------------------------------------------------------------- safety

  /**
   In every interleaving, dead or alive: tenants leave the queue once and in order, `migrateOne`
   runs at most once for each, and never behind a barrier without `--force`.
   */
  lemma EachIsTakenOnce(c: Config, s: State)
    requires Distinct(c.plan) && Reaches(c, s)
    ensures s.taken <= Queued(c) && Distinct(s.taken) && Distinct(s.migrations)
    ensures forall t :: t in s.migrations ==> t in s.taken && (t in c.barred ==> c.force)
  {
    var labels: seq<Label> :| Run(c, labels) == Some(s);
    RunKeeps(c, labels);
    DistinctPrefix(s.taken, s.queue);
  }

  lemma DistinctPrefix(a: seq<nat>, b: seq<nat>)
    requires Distinct(a + b)
    ensures Distinct(a)
  {
    forall i, j | 0 <= i < j < |a|
      ensures a[i] != a[j]
    {
      assert (a + b)[i] == a[i] && (a + b)[j] == a[j];
    }
  }

  /** A row that has become terminal never changes. */
  lemma TerminalIsForGood(c: Config, s: State, l: Label, t: nat)
    requires Distinct(c.plan) && Reaches(c, s) && Do(c, s, l).Some?
    requires t in s.status && Terminal(s.status[t])
    ensures var s' := Do(c, s, l).value; t in s'.status && s'.status[t] == s.status[t]
  {
    var labels: seq<Label> :| Run(c, labels) == Some(s);
    RunKeeps(c, labels);
    if l.Step? && l.w < |s.workers| {
      assert WorkerOk(c, s, s.workers[l.w]);
    }
  }

  /** `--concurrency`: clamped to 1..16, but a word (None) gets through both as NaN: no workers. */
  function Workers(flag: Option<int>): (n: nat)
    ensures n == 0 <==> flag.None?
    ensures flag.Some? && 1 <= flag.value <= 16 ==> n == flag.value
    ensures flag.Some? && flag.value < 1 ==> n == 1
    ensures flag.Some? && flag.value > 16 ==> n == 16
  {
    match flag
    case None => 0
    case Some(n) => if n < 1 then 1 else if n > 16 then 16 else n
  }

  lemma ClosedIsDrained(c: Config, s: State)
    requires Inv(c, s) && s.closed && |s.workers| > 0
    ensures s.queue == [] && s.taken == Queued(c) && s.decided.Keys == Members(Queued(c))
    ensures forall t :: t in Queued(c) ==> DoneOk(c, s, t)
  {
    assert s.workers[0] == Exited;
    assert s.taken + s.queue == s.taken;
    assert forall t :: !Held(s, t);
    hide DoneOk;
    hide WorkerOk;
    hide CountsOk;
    assert forall t :: t in s.taken ==> DoneOk(c, s, t);
    forall t | t in s.taken
      ensures t in s.decided
    {
      DoneIsDecided(c, s, t);
    }
  }

  lemma DoneIsDecided(c: Config, s: State, t: nat)
    requires DoneOk(c, s, t)
    ensures t in s.decided
  {
  }

  /** When the run closes, every queued tenant has one terminal status, and it says what happened. */
  lemma ClosedIsComplete(c: Config, s: State, t: nat)
    requires Distinct(c.plan) && c.concurrency > 0 && Reaches(c, s) && s.closed && t in Queued(c)
    ensures t in s.taken && t in s.status && Terminal(s.status[t])
    ensures s.status[t] == Skipped <==> Blocked(c, t)
    ensures s.status[t] != Skipped <==> t in s.migrations
  {
    var labels: seq<Label> :| Run(c, labels) == Some(s);
    RunKeeps(c, labels);
    ClosedIsDrained(c, s);
    assert t in s.migrations ==> !Blocked(c, t);
    hide Reaches;
    hide PoolOk;
    hide QueueOk;
    hide CountsOk;
  }

  /** Every queued tenant's row says how it went. */
  ghost predicate AllTerminal(c: Config, s: State) {
    forall t :: t in Queued(c) ==> t in s.status && Terminal(s.status[t])
  }

  /** Without workers the run closes at once, as completed, with every tenant still planned. */
  lemma NoWorkersNoMigration(c: Config) returns (s: State)
    requires c.concurrency == 0
    ensures Reaches(c, s) && s.closed && s.failed == 0
    ensures forall t :: t in Queued(c) ==> t in s.status && s.status[t] == Planned
  {
    WithoutIsFilter(c.plan, c.alreadyOk);
    assert [Close][..0] == [];
    assert Run(c, [Close][..0]) == Some(Opened(c));
    s := Run(c, [Close]).value;
  }

  /** So with anything to do, a closed run has done it if and only if the flag was a number. */
  lemma ClosedIsCompleteIff(c: Config, flag: Option<int>)
    requires Distinct(c.plan) && c.concurrency == Workers(flag) && Queued(c) != []
    ensures flag.Some? <==> forall s :: Reaches(c, s) && s.closed ==> AllTerminal(c, s)
  {
    if flag.Some? {
      forall s | Reaches(c, s) && s.closed
        ensures AllTerminal(c, s)
      {
        forall t | t in Queued(c)
          ensures t in s.status && Terminal(s.status[t])
        {
          ClosedIsComplete(c, s, t);
        }
      }
    } else {
      var s := NoWorkersNoMigration(c);
      assert Queued(c)[0] in Queued(c);
    }
  }

  // ---------------------------------------------------------------- counts

  function Members(ts: seq<nat>): set<nat> {
    set t | t in ts
  }

  lemma {:induction false} SizeOf(ts: seq<nat>)
    requires Distinct(ts)
    ensures |Members(ts)| == |ts|
  {
    if ts != [] {
      SizeOf(ts[1..]);
      assert ts == [ts[0]] + ts[1..];
      assert ts[0] !in ts[1..];
      assert Members(ts) == Members(ts[1..]) + {ts[0]};
    } else {
      assert Members(ts) == {};
    }
  }

  lemma OneMoreDropped(drop: set<nat>, ts: set<nat>, t: nat)
    requires t !in ts
    ensures |drop * (ts + {t})| == |drop * ts| + if t in drop then 1 else 0
  {
    assert drop * (ts + {t}) == drop * ts + (if t in drop then {t} else {});
  }

  lemma {:induction false} WithoutSize(ts: seq<nat>, drop: set<nat>)
    requires Distinct(ts)
    ensures |Without(ts, drop)| + |drop * Members(ts)| == |ts|
  {
    if ts != [] {
      WithoutSize(ts[1..], drop);
      assert ts == [ts[0]] + ts[1..];
      assert ts[0] !in ts[1..];
      assert Members(ts) == Members(ts[1..]) + {ts[0]};
      OneMoreDropped(drop, Members(ts[1..]), ts[0]);
      hide Members;
    } else {
      assert drop * Members(ts) == {};
    }
  }

  /** The tenants of the plan whose row says so. */
  function Rows(c: Config, s: State, sts: set<Status>): set<nat> {
    set t | t in Queued(c) && t in s.status && s.status[t] in sts
  }

  lemma CountsAreRows(c: Config, s: State, sts: set<Status>)
    requires Inv(c, s) && s.closed && |s.workers| > 0
    ensures Rows(c, s, sts) == Decided(s, sts)
  {
    ClosedIsDrained(c, s);
  }

  lemma DecidedParts(c: Config, s: State)
    requires BooksOk(c, s)
    ensures |Decided(s, {Ok})| + |Decided(s, {Failed, Timeout})| + |Decided(s, {Skipped})| == |s.decided.Keys|
  {
    var a, b, d := Decided(s, {Ok}), Decided(s, {Failed, Timeout}), Decided(s, {Skipped});
    assert a + b + d == s.decided.Keys;
    assert a * b == {} && (a + b) * d == {};
  }

  /**
   When the run closes the three counters are the rows of the ledger, and they add up to what was
   planned exactly when everything carried over as ok is still in the plan.
   */
  lemma CountsAddUp(c: Config, s: State)
    requires Distinct(c.plan) && c.concurrency > 0 && Reaches(c, s) && s.closed
    ensures s.ok == |Rows(c, s, {Ok})| && s.failed == |Rows(c, s, {Failed, Timeout})|
    ensures s.skipped == |c.alreadyOk| + |Rows(c, s, {Skipped})|
    ensures s.ok + s.failed + s.skipped == |c.alreadyOk| + |Queued(c)|
    ensures s.ok + s.failed + s.skipped == |c.plan| <==> forall t :: t in c.alreadyOk ==> t in c.plan
  {
    var labels: seq<Label> :| Run(c, labels) == Some(s);
    RunKeeps(c, labels);
    CountsAreRows(c, s, {Ok});
    CountsAreRows(c, s, {Failed, Timeout});
    CountsAreRows(c, s, {Skipped});
    ClosedIsDrained(c, s);
    DecidedParts(c, s);
    WithoutIsFilter(c.plan, c.alreadyOk);
    SizeOf(Queued(c));
    NarrowedIff(c);
    hide Decided;
    hide Rows;
    hide PoolOk;
    hide Reaches;
    hide QueueOk;
  }

  lemma NarrowedIff(c: Config)
    requires Distinct(c.plan)
    ensures |c.alreadyOk| + |Queued(c)| == |c.plan| <==> forall t :: t in c.alreadyOk ==> t in c.plan
  {
    WithoutSize(c.plan, c.alreadyOk);
    var planned := Members(c.plan);
    if forall t :: t in c.alreadyOk ==> t in c.plan {
      assert c.alreadyOk * planned == c.alreadyOk;
    } else {
      var t :| t in c.alreadyOk && t !in c.plan;
      assert c.alreadyOk * planned <= c.alreadyOk - {t};
      SubsetSize(c.alreadyOk * planned, c.alreadyOk - {t});
    }
  }

  // ---------------------------------------------------------------- termination

  function Weight(x: Worker): nat {
    match x
    case Exited => 0
    case Ready => 1
    case Recording(_, _) => 2
    case Migrating(_) => 3
    case Taken(_) => 4
  }

  function Weights(ws: seq<Worker>): nat {
    if ws == [] then 0 else Weight(ws[0]) + Weights(ws[1..])
  }

  /** Steps left. */
  function Left(s: State): nat {
    4 * |s.queue| + Weights(s.workers) + if s.closed then 0 else 1
  }

  lemma {:induction false} WeightsMove(ws: seq<Worker>, w: nat, x: Worker)
    requires w < |ws|
    ensures Weights(ws[w := x]) == Weights(ws) - Weight(ws[w]) + Weight(x)
  {
    if w == 0 {
      assert ws[w := x][1..] == ws[1..];
    } else {
      WeightsMove(ws[1..], w - 1, x);
      assert ws[w := x][1..] == ws[1..][w - 1 := x];
    }
  }

  lemma StepsRunOut(c: Config, s: State, l: Label)
    requires Do(c, s, l).Some? && !l.Die?
    ensures Left(Do(c, s, l).value) < Left(s)
  {
    if l.Step? {
      WeightsMove(s.workers, l.w, Do(c, s, l).value.workers[l.w]);
    }
  }

  /** The pool terminates: no run of any number of workers has more steps than this. */
  lemma {:induction false} PoolTerminates(c: Config, labels: seq<Label>)
    requires Run(c, labels).Some? && Die !in labels
    ensures |labels| + Left(Run(c, labels).value) <= 4 * |Queued(c)| + c.concurrency + 1
    decreases |labels|
  {
    if labels == [] {
      AllReady(Opened(c).workers);
    } else {
      var l := labels[|labels| - 1];
      PoolTerminates(c, labels[..|labels| - 1]);
      assert l in labels;
      StepsRunOut(c, Run(c, labels[..|labels| - 1]).value, l);
    }
  }

  lemma {:induction false} AllReady(ws: seq<Worker>)
    requires forall w :: 0 <= w < |ws| ==> ws[w] == Ready
    ensures Weights(ws) == |ws|
  {
    if ws != [] {
      AllReady(ws[1..]);
    }
  }

  lemma Extend(c: Config, s: State, l: Label) returns (s': State)
    requires Reaches(c, s) && Do(c, s, l).Some?
    ensures s' == Do(c, s, l).value && Reaches(c, s')
  {
    hide Do;
    var labels: seq<Label> :| Run(c, labels) == Some(s);
    var more := labels + [l];
    assert more[..|more| - 1] == labels;
    s' := Do(c, s, l).value;
    assert Run(c, more) == Some(s');
  }

  /** And never sticks: from any state a live process reaches, going on in any order ends in a closed run. */
  lemma {:induction false} PoolNeverSticks(c: Config, s: State) returns (s': State)
    requires Reaches(c, s) && !s.dead
    ensures Reaches(c, s') && s'.closed && !s'.dead
    decreases Left(s)
  {
    if s.closed {
      s' := s;
    } else {
      var l := EnabledLabel(c, s);
      StepsRunOut(c, s, l);
      var s1 := Extend(c, s, l);
      s' := PoolNeverSticks(c, s1);
    }
  }

  lemma EnabledLabel(c: Config, s: State) returns (l: Label)
    requires !s.dead && !s.closed
    ensures !l.Die? && Do(c, s, l).Some? && !Do(c, s, l).value.dead
  {
    if AllExited(s) {
      l := Close;
    } else {
      var w :| 0 <= w < |s.workers| && s.workers[w] != Exited;
      l := Step(w, Ok);
    }
  }

  // ---------------------------------------------------------------- resuming

  function Kept(ts: seq<nat>, keep: set<nat>): seq<nat> {
    Without(ts, Members(ts) - keep)
  }

  function OkRows(prior: State): set<nat> {
    set t | t in prior.status && prior.status[t] == Ok
  }

  /** `--resume`: the selected tenants of the prior run's ledger, less those it has as ok. */
  function Resume(prior: State, selected: seq<nat>, barred: set<nat>, force: bool, concurrency: nat): Config {
    Config(Kept(selected, prior.status.Keys), OkRows(prior), barred, force, concurrency)
  }

  lemma ResumeQueue(prior: State, selected: seq<nat>, barred: set<nat>, force: bool, concurrency: nat)
    requires Distinct(selected)
    ensures var c := Resume(prior, selected, barred, force, concurrency);
      && Distinct(c.plan) && Distinct(Queued(c))
      && (forall t :: t in c.plan <==> t in selected && t in prior.status)
      && (forall t :: t in Queued(c) <==> t in selected && t in prior.status && prior.status[t] != Ok)
  {
    var drop := Members(selected) - prior.status.Keys;
    WithoutIsFilter(selected, drop);
    WithoutIsFilter(Without(selected, drop), OkRows(prior));
  }

  /**
   Resume coverage: whatever the prior run died of, no tenant it recorded ok is migrated again,
   and when the resume closes every other tenant still selected was attempted once or is barred.
   */
  lemma ResumeCovers(
    c: Config, prior: State, selected: seq<nat>, barred: set<nat>, force: bool, concurrency: nat, s: State, t: nat)
    requires Distinct(c.plan) && Reaches(c, prior) && Distinct(selected)
    requires Reaches(Resume(prior, selected, barred, force, concurrency), s)
    requires t in prior.status
    ensures prior.status[t] == Ok ==> t !in s.migrations
    ensures Distinct(s.taken) && Distinct(s.migrations)
    ensures s.closed && concurrency > 0 && t in selected && prior.status[t] != Ok ==>
      && t in s.taken && t in s.status
      && (t in s.migrations <==> t !in barred || force)
      && (if t in s.migrations then s.status[t] in {Ok, Failed, Timeout} else s.status[t] == Skipped)
  {
    var r := Resume(prior, selected, barred, force, concurrency);
    ResumeQueue(prior, selected, barred, force, concurrency);
    EachIsTakenOnce(r, s);
    hide OkRows;
    hide Kept;
    if t in s.migrations {
      assert t in Queued(r);
    }
    if s.closed && concurrency > 0 && t in selected && prior.status[t] != Ok {
      ClosedIsComplete(r, s, t);
    }
  }

  /** Counts of a resume add up exactly when its selection was not narrowed. */
  lemma ResumeCountsAddUp(
    prior: State, selected: seq<nat>, barred: set<nat>, force: bool, concurrency: nat, s: State)
    requires Distinct(selected) && concurrency > 0
    requires Reaches(Resume(prior, selected, barred, force, concurrency), s) && s.closed
    ensures s.ok + s.failed + s.skipped == |Resume(prior, selected, barred, force, concurrency).plan|
      <==> forall t :: t in prior.status && prior.status[t] == Ok ==> t in selected
  {
    ResumeQueue(prior, selected, barred, force, concurrency);
    CountsAddUp(Resume(prior, selected, barred, force, concurrency), s);
  }

  /**
   A tenant the first run recorded ok is `skipped` in the resume's ledger, so resuming the resume
   queues it again exactly when it is still selected both times.
   */
  lemma SecondResumeForgets(
    c: Config, first: State, selected: seq<nat>, c2: Config, second: State,
    selected3: seq<nat>, barred: set<nat>, force: bool, concurrency: nat, t: nat)
    requires Distinct(c.plan) && Reaches(c, first) && Distinct(selected) && Distinct(selected3)
    requires c2 == Resume(first, selected, c2.barred, c2.force, c2.concurrency) && Reaches(c2, second)
    requires t in first.status && first.status[t] == Ok
    ensures t in Queued(Resume(second, selected3, barred, force, concurrency)) <==> t in selected && t in selected3
  {
    ResumeQueue(first, selected, c2.barred, c2.force, c2.concurrency);
    ResumeQueue(second, selected3, barred, force, concurrency);
    CarriedIsSkipped(c2, second, t);
  }

  lemma CarriedIsSkipped(c: Config, s: State, t: nat)
    requires Distinct(c.plan) && Reaches(c, s)
    ensures t in c.plan <==> t in s.status
    ensures t in c.plan && t in c.alreadyOk ==> s.status[t] == Skipped
  {
    var labels: seq<Label> :| Run(c, labels) == Some(s);
    RunKeeps(c, labels);
  }

  // ---------------------------------------------------------------- the default, one worker

  lemma OpenedReaches(c: Config)
    ensures Reaches(c, Opened(c))
    ensures c.concurrency == 1 ==> Opened(c).workers == [Ready]
  {
    assert Run(c, []) == Some(Opened(c));
  }

  class MigrationRun {
    var queue: seq<nat>
    var okCount: nat
    var failCount: nat
    var skippedCount: nat
    var rows: map<nat, Status>

    /** What the fields are in a state of the machine. */
    ghost predicate Shows(s: State)
      reads this
    {
      queue == s.queue && rows == s.status && okCount == s.ok && failCount == s.failed && skippedCount == s.skipped
    }

    constructor (c: Config)
      ensures Shows(Opened(c))
    {
      queue := Queued(c);
      okCount, failCount, skippedCount := 0, 0, |c.alreadyOk|;
      rows := map t | t in c.plan :: if t in c.alreadyOk then Skipped else Planned;
    }

    method Mark(t: nat, st: Status)
      modifies this`rows
      ensures rows == old(rows)[t := st]
    {
      rows := rows[t := st];
    }

    /** One tenant, from the head of the queue to its terminal row. */
    method MigrateNext(c: Config, outcome: nat -> Status, ghost s: State) returns (ghost s': State)
      requires c.concurrency == 1 && queue != []
      requires forall t :: outcome(t) in {Ok, Failed, Timeout}
      requires Reaches(c, s) && Shows(s) && s.workers == [Ready] && !s.closed && !s.dead
      modifies this
      ensures Reaches(c, s') && Shows(s') && s'.workers == [Ready] && !s'.closed && !s'.dead
      ensures queue == old(queue)[1..]
      ensures rows == old(rows)[old(queue)[0] := if Blocked(c, old(queue)[0]) then Skipped else outcome(old(queue)[0])]
    {
      hide Reaches;
      hide Queued;
      hide Distinct;
      var t := queue[0];
      queue := queue[1..];
      s' := Extend(c, s, Step(0, Ok));
      if Blocked(c, t) {
        s' := Skip(c, t, s');
      } else {
        s' := Migrate(c, t, outcome(t), s');
      }
    }

    /** A tenant behind the barrier. */
    method Skip(c: Config, t: nat, ghost s: State) returns (ghost s': State)
      requires Reaches(c, s) && Shows(s) && s.workers == [Taken(t)] && !s.closed && !s.dead && Blocked(c, t)
      modifies this
      ensures Reaches(c, s') && Shows(s') && s'.workers == [Ready] && !s'.closed && !s'.dead
      ensures queue == old(queue) && rows == old(rows)[t := Skipped]
    {
      hide Reaches;
      skippedCount := skippedCount + 1;
      s' := Extend(c, s, Step(0, Ok));
      Mark(t, Skipped);
      s' := Extend(c, s', Step(0, Ok));
    }

    /** Any other. */
    method Migrate(c: Config, t: nat, st: Status, ghost s: State) returns (ghost s': State)
      requires Reaches(c, s) && Shows(s) && s.workers == [Taken(t)] && !s.closed && !s.dead && !Blocked(c, t)
      requires st == Ok || st == Failed || st == Timeout
      modifies this
      ensures Reaches(c, s') && Shows(s') && s'.workers == [Ready] && !s'.closed && !s'.dead
      ensures queue == old(queue) && rows == old(rows)[t := st]
    {
      hide Reaches;
      Mark(t, Running);
      s' := Extend(c, s, Step(0, Ok));
      if st == Ok {
        okCount := okCount + 1;
      } else {
        failCount := failCount + 1;
      }
      s' := Extend(c, s', Step(0, st));
      Mark(t, st);
      s' := Extend(c, s', Step(0, Ok));
    }

    /** The run with `--concurrency=1` is one of the machine's, so all of the above holds of it. */
    method MigrateAll(c: Config, outcome: nat -> Status) returns (ghost s: State)
      requires c.concurrency == 1 && Distinct(c.plan) && Shows(Opened(c))
      requires forall t :: outcome(t) in {Ok, Failed, Timeout}
      modifies this
      ensures Reaches(c, s) && s.closed && Shows(s)
      ensures rows.Keys == Members(c.plan)
      ensures forall t :: t in c.plan ==>
        rows[t] == if t in c.alreadyOk || Blocked(c, t) then Skipped else outcome(t)
    {
      hide Reaches;
      s := Opened(c);
      OpenedReaches(c);
      WithoutIsFilter(c.plan, c.alreadyOk);
      hide Without;
      while queue != []
        invariant Reaches(c, s) && Shows(s) && s.workers == [Ready] && !s.closed && !s.dead
        invariant rows.Keys == Members(c.plan)
        invariant forall t :: t in queue ==> t in c.plan && t !in c.alreadyOk
        invariant forall t :: t in c.plan && t !in queue ==>
          rows[t] == if t in c.alreadyOk || Blocked(c, t) then Skipped else outcome(t)
        decreases |queue|
      {
        assert queue == [queue[0]] + queue[1..];
        s := MigrateNext(c, outcome, s);
      }
      s := Extend(c, s, Step(0, Ok));
      s := Extend(c, s, Close);
    }
  }
}
