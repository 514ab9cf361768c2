/**
 `main` of scripts/tenant-relocate.ts as the straight line it is, with its shared catch. Between
 any two statements other processes do whatever `world` says; the run is proved to be a history
 of the machine in `Relocation`, and where it ends is stated for every statement that can fail.
 */
module RelocationRun {
  import opened Basics
  import opened Relocation

  /** The statement that throws, if one does. */
  datatype Fault =
    | NoFault | AtOpen | AtMode | AtFence | AtSignal | AtTemp
    | AtDump | AtCreate | AtRestore | AtVerify | AtProvision | AtTransaction
    | AtBust | AtClose | AtCloseBust

  datatype Plan = Plan(fault: Fault, unfenceFails: bool, world: nat -> seq<Label>)

  /** The script's own state: what other processes cannot move. */
  datatype View = View(pc: Pc, fence: bool, window: bool, control: Host, abandoned: bool)

  function ViewOf(s: State): View {
    View(s.pc, s.fence, s.window, s.control, s.abandoned)
  }

  ghost predicate Undisturbed(a: State, b: State) {
    ViewOf(b) == ViewOf(a) && b.deadline == a.deadline && b.now >= a.now
  }

  predicate IsWorld(l: Label) {
    l != Advance && l != Break && l != Crash
  }

  lemma WorldDoesNotDisturb(c: Config, s: State, l: Label)
    requires IsWorld(l) && Do(c, s, l).Some?
    ensures Undisturbed(s, Do(c, s, l).value)
  {
  }

  /** Before the `try`: nothing is undone. */
  predicate Early(f: Fault) {
    f.AtOpen? || f.AtMode? || f.AtFence? || f.AtSignal? || f.AtTemp?
  }

  /** The fence is on and the catch out of reach: it stays on. */
  predicate Strands(f: Fault) {
    f.AtSignal? || f.AtTemp?
  }

  predicate Copying(f: Fault) {
    f.AtDump? || f.AtCreate? || f.AtRestore? || f.AtVerify? || f.AtProvision?
  }

  /** The window is closed in the control plane. */
  predicate Closed(f: Fault) {
    f.NoFault? || f.AtCloseBust?
  }

  /** The catch finds the control plane where it was. */
  predicate BeforeTheMove(f: Fault) {
    Copying(f) || f.AtTransaction?
  }

  // ---------------------------------------------------------------- one statement

  /** A statement that can throw, and the wait before it is over. */
  predicate MayRun(s: State) {
    Unguarded(s.pc) || Guarded(s)
  }

  function NextPc(pc: Pc): Pc {
    match pc
    case Start => WindowOpen
    case WindowOpen => ModeBusted
    case ModeBusted => Fenced
    case Fenced => Draining
    case Slept => Drained
    case Drained => Dumped
    case Dumped => Prepared
    case Prepared => Restored
    case Restored => Verified
    case Verified => Relocation.Ready
    case Ready => Committed
    case Committed => CutoverDraining
    case CutoverDraining => WindowEnded
    case _ => WindowClosed
  }

  /** What a statement that succeeds does to the script's own state. */
  function Went(v: View): View {
    View(NextPc(v.pc), v.fence || v.pc == ModeBusted,
         if v.pc == Start then true else if v.pc == CutoverDraining then false else v.window,
         if v.pc == Relocation.Ready then Dest else v.control, v.abandoned)
  }

  /** One that throws does nothing but end the script, or reach its catch. */
  function Threw(v: View): View {
    v.(pc := if Unguarded(v.pc) then Dead else Catching, abandoned := v.abandoned || v.pc == Committed)
  }

  lemma SucceedsBeforeCommit(c: Config, s: State)
    requires MayRun(s) && BeforeCommit(s.pc)
    ensures ProceedToCommit(c, s).Some? && ViewOf(ProceedToCommit(c, s).value) == Went(ViewOf(s))
  {
    hide Signalled;
  }

  lemma SucceedsAfterCommit(c: Config, s: State)
    requires MayRun(s) && !BeforeCommit(s.pc)
    ensures ProceedFromCommit(c, s).Some? && ViewOf(ProceedFromCommit(c, s).value) == Went(ViewOf(s))
  {
  }

  lemma StatementSucceeds(c: Config, s: State)
    requires MayRun(s)
    ensures Do(c, s, Advance).Some? && ViewOf(Do(c, s, Advance).value) == Went(ViewOf(s))
  {
    if BeforeCommit(s.pc) {
      SucceedsBeforeCommit(c, s);
    } else {
      SucceedsAfterCommit(c, s);
    }
    hide ProceedToCommit;
    hide ProceedFromCommit;
    hide Went;
    hide Fail;
  }

  lemma StatementThrows(c: Config, s: State)
    requires MayRun(s)
    ensures Do(c, s, Break).Some? && ViewOf(Do(c, s, Break).value) == Threw(ViewOf(s))
  {
  }

  predicate IsPlain(pc: Pc) {
    pc.WindowOpen? || pc.Fenced? || pc.Slept? || pc.Drained? || pc.Dumped? || pc.Prepared? || pc.Restored?
    || pc.Verified? || pc.WindowEnded?
  }

  lemma SleptNow(c: Config, s: State)
    requires s.pc == Draining && s.now >= s.deadline
    ensures Do(c, s, Advance) == Some(s.(pc := Slept))
  {
  }

  /** The last statement of the script, or of its catch: its own failure is only a warning. */
  lemma Unfenced(c: Config, s: State, fails: bool)
    requires s.pc == WindowClosed || s.pc == Catching
    ensures Do(c, s, if fails then Break else Advance)
      == Some(s.(pc := if s.pc == WindowClosed then Done else Failed, fence := fails && s.fence))
  {
  }

  lemma KeepsWrites(c: Config, rows: set<nat>, s: State, history: seq<Label>)
    requires Run(c, Initial(rows), history) == Some(s)
    ensures SafeConfig(c) && !s.abandoned ==> NothingLost(s)
  {
    if SafeConfig(c) && !s.abandoned {
      NoAcceptedWriteIsLost(c, rows, s);
    }
  }

  lemma Quiet(c: Config, rows: set<nat>, s: State, history: seq<Label>)
    requires Run(c, Initial(rows), history) == Some(s)
    ensures SafeConfig(c) && s.pc == Drained ==> SourceQuiet(s)
  {
    if SafeConfig(c) && s.pc == Drained {
      FirstWaitQuietsTheSource(c, rows, s, 0, 0, 0);
    }
  }

  class Relocator {
    var s: State
    ghost var rows: set<nat>
    ghost var history: seq<Label>

    ghost predicate Valid(c: Config)
      reads this
    {
      Run(c, Initial(rows), history) == Some(s)
    }

    constructor (c: Config, known: set<nat>)
      ensures Valid(c) && s == Initial(known) && rows == known
    {
      s, rows, history := Initial(known), known, [];
    }

    method Take(c: Config, l: Label)
      requires Valid(c) && Do(c, s, l).Some?
      modifies this
      ensures Valid(c) && rows == old(rows) && s == Do(c, old(s), l).value
    {
      hide Do;
      s := Do(c, s, l).value;
      history := history + [l];
      assert history[..|history| - 1] == old(history);
    }

    method Others(c: Config, world: seq<Label>)
      requires Valid(c)
      modifies this
      ensures Valid(c) && rows == old(rows) && Undisturbed(old(s), s)
    {
      hide Do;
      for i := 0 to |world|
        invariant Valid(c) && rows == old(rows) && Undisturbed(old(s), s)
      {
        if IsWorld(world[i]) && Do(c, s, world[i]).Some? {
          WorldDoesNotDisturb(c, s, world[i]);
          Take(c, world[i]);
        }
      }
    }

    method Sleep(c: Config)
      requires Valid(c)
      modifies this
      ensures Valid(c) && rows == old(rows) && Undisturbed(old(s), s) && s.now >= s.deadline
    {
      while s.now < s.deadline
        invariant Valid(c) && rows == old(rows) && Undisturbed(old(s), s)
        decreases s.deadline - s.now
      {
        Take(c, Tick);
      }
    }

    /** The statement `here` succeeds, or throws. */
    method Statement(c: Config, plan: Plan, here: Fault, n: nat) returns (ok: bool)
      requires Valid(c) && MayRun(s)
      modifies this
      ensures Valid(c) && rows == old(rows) && ok == (plan.fault != here)
      ensures ViewOf(s) == if ok then Went(ViewOf(old(s))) else Threw(ViewOf(old(s)))
    {
      hide Do;
      hide Run;
      Others(c, plan.world(n));
      StatementSucceeds(c, s);
      StatementThrows(c, s);
      ok := plan.fault != here;
      Take(c, if ok then Advance else Break);
    }

    /** A statement that leaves all but the script's place alone when it succeeds. */
    method Plain(c: Config, plan: Plan, here: Fault, n: nat, next: Pc) returns (ok: bool)
      requires Valid(c) && IsPlain(s.pc) && next == NextPc(s.pc)
      modifies this
      ensures Valid(c) && rows == old(rows) && ok == (plan.fault != here)
      ensures ViewOf(s) ==
        ViewOf(old(s)).(pc := if ok then next else if Unguarded(old(s).pc) then Dead else Catching)
    {
      ok := Statement(c, plan, here, n);
    }

    /** The window, the mode cache, the fence and the signal. */
    method OpenWindow(c: Config, plan: Plan) returns (ok: bool)
      requires Valid(c) && ViewOf(s) == View(Start, false, false, Source, false)
      modifies this
      ensures Valid(c) && rows == old(rows)
      ensures ok == !(plan.fault.AtOpen? || plan.fault.AtMode? || plan.fault.AtFence? || plan.fault.AtSignal?)
      ensures ViewOf(s) == View(if ok then Draining else Dead, ok || plan.fault.AtSignal?, plan.fault != AtOpen, Source, false)
    {
      hide Run;
      hide Do;
      ok := Statement(c, plan, AtOpen, 0);
      if !ok { return; }
      ok := Plain(c, plan, AtMode, 1, ModeBusted);
      if !ok { return; }
      ok := Statement(c, plan, AtFence, 2);
      if !ok { return; }
      ok := Plain(c, plan, AtSignal, 3, Draining);
    }

    /** Before the `try` block: what fails here is not undone. */
    method FenceTenant(c: Config, plan: Plan) returns (ok: bool)
      requires Valid(c) && ViewOf(s) == View(Start, false, false, Source, false)
      modifies this
      ensures Valid(c) && rows == old(rows) && ok == !Early(plan.fault)
      ensures ViewOf(s) ==
        View(if ok then Drained else Dead, ok || Strands(plan.fault), plan.fault != AtOpen, Source, false)
      ensures ok && SafeConfig(c) ==> SourceQuiet(s)
    {
      hide Run;
      hide Do;
      hide SourceQuiet;
      hide SafeConfig;
      ok := OpenWindow(c, plan);
      if !ok { return; }
      Others(c, plan.world(4));
      Sleep(c);
      SleptNow(c, s);
      Take(c, Advance);
      ok := Plain(c, plan, AtTemp, 5, Drained);
      Quiet(c, rows, s, history);
    }

    /** The dump and the restore. */
    method CopyData(c: Config, plan: Plan) returns (ok: bool)
      requires Valid(c) && s.pc == Drained
      modifies this
      ensures Valid(c) && rows == old(rows)
      ensures ok == !(plan.fault.AtDump? || plan.fault.AtCreate? || plan.fault.AtRestore?)
      ensures ViewOf(s) == ViewOf(old(s)).(pc := if ok then Restored else Catching)
    {
      hide Run;
      hide Do;
      ok := Plain(c, plan, AtDump, 6, Dumped);
      if !ok { return; }
      ok := Plain(c, plan, AtCreate, 7, Prepared);
      if !ok { return; }
      ok := Plain(c, plan, AtRestore, 8, Restored);
    }

    /** The first half of the `try` block: the copy at the destination, and its roles. */
    method CopyTenant(c: Config, plan: Plan) returns (ok: bool)
      requires Valid(c) && s.pc == Drained
      modifies this
      ensures Valid(c) && rows == old(rows) && ok == !Copying(plan.fault)
      ensures ViewOf(s) == ViewOf(old(s)).(pc := if ok then Relocation.Ready else Catching)
    {
      hide Run;
      hide Do;
      ok := CopyData(c, plan);
      if !ok { return; }
      ok := Plain(c, plan, AtVerify, 9, Verified);
      if !ok { return; }
      ok := Plain(c, plan, AtProvision, 10, Relocation.Ready);
    }

    /** The wait for old addresses, and the end of the window. */
    method CloseWindow(c: Config, plan: Plan) returns (ok: bool)
      requires Valid(c) && s.pc == CutoverDraining && s.window
      modifies this
      ensures Valid(c) && rows == old(rows) && ok == !(plan.fault.AtClose? || plan.fault.AtCloseBust?)
      ensures ViewOf(s) == ViewOf(old(s)).(pc := if ok then WindowClosed else Catching, window := plan.fault.AtClose?)
    {
      hide Run;
      hide Do;
      Others(c, plan.world(13));
      Sleep(c);
      ok := Statement(c, plan, AtClose, 14);
      if !ok { return; }
      ok := Plain(c, plan, AtCloseBust, 15, WindowClosed);
    }

    /** The second half: the control plane moves, the caches are busted, the window closes. */
    method SwitchOver(c: Config, plan: Plan) returns (ok: bool)
      requires Valid(c) && !Early(plan.fault) && !Copying(plan.fault)
      requires ViewOf(s) == View(Relocation.Ready, true, true, Source, false)
      modifies this
      ensures Valid(c) && rows == old(rows) && ok == (plan.fault == NoFault)
      ensures ViewOf(s) == View(if ok then WindowClosed else Catching, true, !Closed(plan.fault),
                                if plan.fault.AtTransaction? then Source else Dest, plan.fault.AtBust?)
    {
      hide Run;
      hide Do;
      ok := Statement(c, plan, AtTransaction, 11);
      if !ok { return; }
      ok := Statement(c, plan, AtBust, 12);
      if !ok { return; }
      ok := CloseWindow(c, plan);
    }

    method Relocate(c: Config, plan: Plan) returns (done: bool)
      requires Valid(c) && s == Initial(rows)
      modifies this
      ensures Valid(c) && rows == old(rows)
      ensures done == (plan.fault == NoFault)
      ensures s.pc == if done then Done
        else if plan.fault in {AtOpen, AtMode, AtFence, AtSignal, AtTemp} then Dead else Failed
      ensures s.control == if plan.fault in {NoFault, AtBust, AtClose, AtCloseBust} then Dest else Source
      ensures plan.fault in {AtOpen, AtMode, AtFence} ==> !s.fence
      ensures plan.fault in {AtSignal, AtTemp} ==> s.fence
      ensures plan.fault !in {AtOpen, AtMode, AtFence, AtSignal, AtTemp} ==> s.fence == plan.unfenceFails
      ensures s.window == (plan.fault !in {NoFault, AtCloseBust, AtOpen})
      ensures SafeConfig(c) && plan.fault != AtBust ==> NothingLost(s)
    {
      hide Run;
      hide Do;
      hide NothingLost;
      hide SafeConfig;
      done := FenceTenant(c, plan);
      if !done {
        KeepsWrites(c, rows, s, history);
        return;
      }
      done := CopyTenant(c, plan);
      if done { done := SwitchOver(c, plan); }
      Others(c, plan.world(16));
      Unfenced(c, s, plan.unfenceFails);
      Take(c, if plan.unfenceFails then Break else Advance);
      KeepsWrites(c, rows, s, history);
    }
  }
}
