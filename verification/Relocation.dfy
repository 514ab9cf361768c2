/**
 Relocating a tenant to another host: `main` of scripts/tenant-relocate.ts, while API processes
 and workers keep writing.

 A run is a list of labels: the script's next statement succeeding or failing, its process
 dying, the clock, and everything the writers do. No HTTP request is stopped by the read_only
 mode here (a process may hold a stale mode, and administrators bypass it), so what is proved
 does not rest on the mode but on the database-level fence.
 */
module Relocation {
  import opened Basics
  import opened TenantResolver

  datatype Host = Source | Dest

  /** A unit of work that has resolved an address. */
  datatype Writer = Writer(host: Host, since: nat)

  /**
   `default_transaction_read_only` is read when a session starts, and only then. A backend that
   was signalled may still commit until `until`.
   */
  datatype Session = Session(host: Host, readOnly: bool, until: Option<nat>)

  datatype Pc =
    | Start | WindowOpen | ModeBusted | Fenced | Draining | Slept | Drained | Dumped | Prepared
    | Restored | Verified | Ready | Committed | CutoverDraining | WindowEnded | WindowClosed | Done
    | Catching | Failed | Dead

  /**
   `life`: how long a resolved address may still be used, by a request or from the in-process memo
   kept while Redis fails. `linger`: how long a signalled backend may still commit. `ttl`:
   TENANT_CACHE_TTL_SEC. `drain` and `cutoverDrain`: the two waits of the script.
   */
  datatype Config = Config(procs: set<nat>, ttl: nat, life: nat, linger: nat, drain: nat, cutoverDrain: nat)

  datatype State = State(
    pc: Pc, now: nat, deadline: nat,
    source: set<nat>, dest: set<nat>, dump: set<nat>, fence: bool,
    control: Host, cache: Cache<Host>, window: bool,
    writers: map<nat, Writer>, sessions: map<nat, Session>,
    accepted: set<nat>,
    committedAt: nat, bustedAt: nat, abandoned: bool)

  datatype Label =
    | Advance | Break | Crash | Tick
    | Request(p: nat, w: nat) | Work(w: nat) | Connect(w: nat, s: nat) | Put(w: nat, s: nat, id: nat)
    | Leave(w: nat) | Close(s: nat) | SharedExpires | Evict(p: nat)

  function Initial(rows: set<nat>): State {
    State(Start, 0, 0, rows, {}, {}, false, Source, Cache(false, map[]), false, map[], map[], rows, 0, 0, false)
  }

  /** A session that can still commit a write. */
  predicate CanCommit(session: Session, now: nat) {
    !session.readOnly && (session.until.None? || now < session.until.value)
  }

  /** No session can write to the source, now or later. */
  predicate SourceQuiet(s: State) {
    s.fence && forall x :: x in s.sessions && s.sessions[x].host == Source ==> !CanCommit(s.sessions[x], s.now)
  }

  /** pg_terminate_backend on every session of the source. */
  function Signalled(sessions: map<nat, Session>, until: nat): map<nat, Session> {
    map x | x in sessions :: if sessions[x].host == Source then sessions[x].(until := Some(until)) else sessions[x]
  }

  predicate BeforeCommit(pc: Pc) {
    pc.Start? || pc.WindowOpen? || pc.ModeBusted? || pc.Fenced? || pc.Draining? || pc.Slept? || pc.Drained?
    || pc.Dumped? || pc.Prepared? || pc.Restored? || pc.Verified? || pc.Ready?
  }

  /** The next statement of the script, when it succeeds. */
  function Proceed(c: Config, s: State): Option<State> {
    if BeforeCommit(s.pc) then ProceedToCommit(c, s) else ProceedFromCommit(c, s)
  }

  function ProceedToCommit(c: Config, s: State): Option<State> {
    match s.pc
    case Start => Some(s.(pc := WindowOpen, window := true))
    case WindowOpen => Some(s.(pc := ModeBusted))
    case ModeBusted => Some(s.(pc := Fenced, fence := true))
    case Fenced =>
      Some(s.(pc := Draining, deadline := s.now + c.drain, sessions := Signalled(s.sessions, s.now + c.linger)))
    case Draining => if s.now >= s.deadline then Some(s.(pc := Slept)) else None
    // The temporary directory, still before the `try`.
    case Slept => Some(s.(pc := Drained))
    case Drained => Some(s.(pc := Dumped, dump := s.source))
    case Dumped => Some(s.(pc := Prepared))
    case Prepared => Some(s.(pc := Restored, dest := s.dump))
    case Restored => Some(s.(pc := Verified))
    case Verified => Some(s.(pc := Ready))
    case Ready => Some(s.(pc := Committed, control := Dest, committedAt := s.now))
    case _ => None
  }

  function ProceedFromCommit(c: Config, s: State): Option<State> {
    match s.pc
    case Committed =>
      Some(s.(pc := CutoverDraining, cache := Bust(s.cache), bustedAt := s.now, deadline := s.now + c.cutoverDrain))
    case CutoverDraining => if s.now >= s.deadline then Some(s.(pc := WindowEnded, window := false)) else None
    // The window is closed in the control plane; the mode cache is busted after it.
    case WindowEnded => Some(s.(pc := WindowClosed))
    case WindowClosed => Some(s.(pc := Done, fence := false))
    case Catching => Some(s.(pc := Failed, fence := false))
    case _ => None
  }

  /** Outside the `try`: a failure ends the script. */
  predicate Unguarded(pc: Pc) {
    pc.Start? || pc.WindowOpen? || pc.ModeBusted? || pc.Fenced? || pc.Slept?
  }

  /** Inside it: a failure reaches the catch. A wait does not fail. */
  predicate Guarded(s: State) {
    s.pc.Drained? || s.pc.Dumped? || s.pc.Prepared? || s.pc.Restored? || s.pc.Verified? || s.pc.Ready?
    || s.pc.Committed? || (s.pc.CutoverDraining? && s.now >= s.deadline) || s.pc.WindowEnded?
  }

  /** The next statement of the script, when it fails; `abandoned` when that is the bust after the commit. */
  function Fail(s: State): Option<State> {
    if Unguarded(s.pc) then Some(s.(pc := Dead))
    else if Guarded(s) then Some(s.(pc := Catching, abandoned := s.abandoned || s.pc.Committed?))
    else if s.pc.WindowClosed? then Some(s.(pc := Done))
    else if s.pc.Catching? then Some(s.(pc := Failed))
    else None
  }

  /** A resolved address that may still be used. */
  predicate Alive(c: Config, s: State, w: nat) {
    w in s.writers && s.now < s.writers[w].since + c.life
  }

  function Do(c: Config, s: State, l: Label): Option<State> {
    match l
    case Advance => Proceed(c, s)
    case Break => Fail(s)
    case Crash => if s.pc == Done then None else Some(s.(pc := Dead))
    case Tick => Some(s.(now := s.now + 1))
    case Request(p, w) =>
      if p in c.procs && w !in s.writers then
        Some(s.(writers := s.writers[w := Writer(Resolved(s.cache, p, s.control, s.now, c.ttl), s.now)],
                cache := AfterResolve(s.cache, p, s.control, s.now, c.ttl)))
      else None
    case Work(w) =>
      if w !in s.writers then Some(s.(writers := s.writers[w := Writer(s.control, s.now)])) else None
    case Connect(w, x) =>
      if Alive(c, s, w) && x !in s.sessions then
        var host := s.writers[w].host;
        Some(s.(sessions := s.sessions[x := Session(host, host == Source && s.fence, None)]))
      else None
    case Put(w, x, id) =>
      if Alive(c, s, w) && x in s.sessions && s.sessions[x].host == s.writers[w].host
         && CanCommit(s.sessions[x], s.now) && id !in s.accepted then
        var s' := s.(accepted := s.accepted + {id});
        Some(if s.writers[w].host == Source then s'.(source := s.source + {id}) else s'.(dest := s.dest + {id}))
      else None
    case Leave(w) => Some(s.(writers := s.writers - {w}))
    case Close(x) => Some(s.(sessions := s.sessions - {x}))
    case SharedExpires => Some(s.(cache := Bust(s.cache)))
    case Evict(p) => Some(s.(cache := Forget(s.cache, p)))
  }

  function Run(c: Config, s: State, labels: seq<Label>): Option<State>
    decreases |labels|
  {
    if labels == [] then Some(s)
    else
      match Run(c, s, labels[..|labels| - 1])
      case None => None
      case Some(s') => Do(c, s', labels[|labels| - 1])
  }

  ghost predicate Reaches(c: Config, rows: set<nat>, s: State) {
    exists labels: seq<Label> :: Run(c, Initial(rows), labels) == Some(s)
  }

  /** Every write a database ever acknowledged is in the database the control plane names. */
  predicate NothingLost(s: State) {
    s.accepted <= if s.control == Source then s.source else s.dest
  }

  /** How long after the bust an old address can still be in use. */
  function Straggling(c: Config): nat {
    if |c.procs| >= 2 then c.ttl + c.life else c.life
  }

  // ---------------------------------------------------------------- the invariant

  /** The first wait is over, the transaction not yet made. */
  predicate AfterWait(pc: Pc) {
    BeforeCommit(pc) && !(pc.Start? || pc.WindowOpen? || pc.ModeBusted? || pc.Fenced? || pc.Draining?)
  }

  /** The transaction is made, and the script still on its way. */
  predicate AfterMove(pc: Pc) {
    pc.Committed? || pc.CutoverDraining? || pc.WindowEnded? || pc.WindowClosed? || pc.Done?
  }

  /** With the control plane moved, the second wait is over. */
  predicate Waited(pc: Pc) {
    pc.WindowEnded? || pc.WindowClosed? || pc.Done? || pc.Catching? || pc.Failed?
  }

  /** The old address was still handed out at this time, but never later. */
  function LastStale(c: Config, s: State): nat {
    if |c.procs| >= 2 then s.committedAt + c.ttl else s.bustedAt
  }

  /** Between the signal and the end of the wait: who could write will be gone by then. */
  ghost predicate WillBeQuiet(s: State) {
    s.fence && forall x :: x in s.sessions && s.sessions[x].host == Source ==> !CanCommit(s.sessions[x], s.deadline)
  }

  /** Before the control plane moves, nothing points at the destination. */
  ghost predicate OldWorld(c: Config, s: State) {
    && s.control == Source && s.accepted <= s.source
    && !AfterMove(s.pc)
    && (forall w :: w in s.writers ==> s.writers[w].host == Source)
    && (forall x :: x in s.sessions ==> s.sessions[x].host == Source)
    && (forall p :: p in s.cache.local ==> s.cache.local[p].value == Source)
    && (s.pc == Fenced ==> s.fence) && (s.pc == Draining ==> WillBeQuiet(s))
    && (AfterWait(s.pc) ==> SourceQuiet(s))
    && (s.pc.Dumped? || s.pc.Prepared? ==> s.dump == s.source)
    && (s.pc.Restored? || s.pc.Verified? || s.pc.Ready? ==> s.dest == s.source)
  }

  /** After it moved, the source takes no write: it is quiet, or nobody holds its address any more. */
  ghost predicate NewWorld(c: Config, s: State) {
    && s.control == Dest && s.accepted <= s.dest
    && s.committedAt <= s.now && StaleSince(s.cache, Dest, s.committedAt)
    && (forall w :: w in s.writers && s.writers[w].host == Source ==> s.writers[w].since <= s.committedAt + c.ttl)
    && !BeforeCommit(s.pc)
    && (SourceQuiet(s) || Settled(c, s))
    && ((AfterMove(s.pc) && !s.pc.Committed?) || Settled(c, s) ==> Busted(c, s))
    && (s.pc == CutoverDraining ==> s.deadline >= s.bustedAt + c.cutoverDrain)
    && (AfterMove(s.pc) && !s.pc.Done? ==> SourceQuiet(s))
    && (Waited(s.pc) ==> Settled(c, s))
  }

  /** The cache was busted: old addresses are at most as young as `LastStale`. */
  ghost predicate Busted(c: Config, s: State) {
    && s.committedAt <= s.bustedAt <= s.now
    && (forall w :: w in s.writers && s.writers[w].host == Source ==> s.writers[w].since <= LastStale(c, s))
    && (|c.procs| < 2 ==> Current(s.cache, Dest))
  }

  /** The wait is over: every old address has outlived its use. */
  ghost predicate Settled(c: Config, s: State) {
    Busted(c, s) && s.now >= s.bustedAt + c.cutoverDrain
  }

  ghost predicate Inv(c: Config, s: State) {
    && Fits(s.cache, c.procs, s.now)
    && (forall w :: w in s.writers ==> s.writers[w].since <= s.now)
    && (if s.abandoned then !BeforeCommit(s.pc) else OldWorld(c, s) || NewWorld(c, s))
  }

  /** Each wait covers what it waits for: signalled backends, and old addresses. */
  ghost predicate SafeConfig(c: Config) {
    c.drain >= c.linger && c.cutoverDrain >= Straggling(c)
  }

  /** A writer that may act and still has the old address is impossible once the wait is over. */
  lemma SettledHasNoStragglers(c: Config, s: State, w: nat)
    requires SafeConfig(c) && Settled(c, s) && Alive(c, s, w)
    ensures s.writers[w].host == Dest
  {
  }

  lemma SameSessions(s: State, s': State)
    requires s'.sessions == s.sessions && s'.fence == s.fence && s'.now == s.now && s'.deadline == s.deadline
    ensures SourceQuiet(s) <==> SourceQuiet(s')
    ensures WillBeQuiet(s) <==> WillBeQuiet(s')
  {
  }

  /** The statements before the signal. */
  lemma AdvanceToSignal(c: Config, s: State)
    requires OldWorld(c, s) && (s.pc == Start || s.pc == WindowOpen || s.pc == ModeBusted)
    ensures OldWorld(c, ProceedToCommit(c, s).value)
  {
    hide SourceQuiet;
    hide WillBeQuiet;
  }

  /** The signal: whoever could write will be gone when the wait is. */
  lemma AdvanceSignals(c: Config, s: State)
    requires SafeConfig(c) && OldWorld(c, s) && s.pc == Fenced
    ensures OldWorld(c, ProceedToCommit(c, s).value)
  {
    var s' := ProceedToCommit(c, s).value;
    assert s' == s.(pc := Draining, deadline := s.now + c.drain, sessions := Signalled(s.sessions, s.now + c.linger));
    hide ProceedToCommit;
    hide SourceQuiet;
  }

  lemma AdvanceSleeps(c: Config, s: State)
    requires OldWorld(c, s) && s.pc == Draining && ProceedToCommit(c, s).Some?
    ensures OldWorld(c, ProceedToCommit(c, s).value)
  {
    var s' := ProceedToCommit(c, s).value;
    assert s' == s.(pc := Slept);
    hide ProceedToCommit;
  }

  /** The statements between the first wait and the transaction. */
  lemma AdvanceToMove(c: Config, s: State)
    requires OldWorld(c, s) && AfterWait(s.pc) && s.pc != Ready && ProceedToCommit(c, s).Some?
    ensures OldWorld(c, ProceedToCommit(c, s).value)
  {
    SameSessions(s, ProceedToCommit(c, s).value);
    hide SourceQuiet;
    hide WillBeQuiet;
  }

  lemma AdvanceMoves(c: Config, s: State)
    requires OldWorld(c, s) && s.pc == Ready && Fits(s.cache, c.procs, s.now)
    requires forall w :: w in s.writers ==> s.writers[w].since <= s.now
    ensures NewWorld(c, ProceedToCommit(c, s).value)
  {
    SameSessions(s, ProceedToCommit(c, s).value);
    hide SourceQuiet;
    hide WillBeQuiet;
  }

  lemma AdvanceOld(c: Config, s: State)
    requires SafeConfig(c) && OldWorld(c, s) && Fits(s.cache, c.procs, s.now) && ProceedToCommit(c, s).Some?
    requires BeforeCommit(s.pc)
    requires forall w :: w in s.writers ==> s.writers[w].since <= s.now
    ensures var s' := ProceedToCommit(c, s).value; if s.pc == Ready then NewWorld(c, s') else OldWorld(c, s')
  {
    hide OldWorld;
    hide NewWorld;
    hide ProceedToCommit;
    if s.pc == Ready {
      AdvanceMoves(c, s);
    } else if AfterWait(s.pc) {
      AdvanceToMove(c, s);
    } else if s.pc == Fenced {
      AdvanceSignals(c, s);
    } else if s.pc == Draining {
      AdvanceSleeps(c, s);
    } else {
      AdvanceToSignal(c, s);
    }
  }

  /** A failure before the move, with the control plane where it was. */
  lemma CatchOld(c: Config, s: State)
    requires OldWorld(c, s) && !BeforeCommit(s.pc) && ProceedFromCommit(c, s).Some?
    ensures OldWorld(c, ProceedFromCommit(c, s).value)
  {
    hide SourceQuiet;
    hide WillBeQuiet;
  }

  lemma BustNew(c: Config, s: State)
    requires NewWorld(c, s) && s.pc == Committed
    requires forall w :: w in s.writers ==> s.writers[w].since <= s.now
    ensures NewWorld(c, ProceedFromCommit(c, s).value)
  {
    BustIsCurrent(s.cache, Dest);
  }

  lemma AdvanceNew(c: Config, s: State)
    requires NewWorld(c, s) && s.pc != Committed && ProceedFromCommit(c, s).Some?
    ensures NewWorld(c, ProceedFromCommit(c, s).value)
  {
    hide StaleSince;
    hide Current;
  }

  /** The script does not touch the writers, the clock or the processes' own entries. */
  ghost predicate SameWorld(s: State, s': State) {
    s'.now == s.now && s'.writers == s.writers && s'.cache.local == s.cache.local
  }

  lemma ToCommitFrame(c: Config, s: State)
    requires ProceedToCommit(c, s).Some?
    ensures SameWorld(s, ProceedToCommit(c, s).value) && ProceedToCommit(c, s).value.abandoned == s.abandoned
  {
  }

  lemma FromCommitFrame(c: Config, s: State)
    requires ProceedFromCommit(c, s).Some?
    ensures var s' := ProceedFromCommit(c, s).value;
      SameWorld(s, s') && s'.abandoned == s.abandoned && !BeforeCommit(s'.pc)
  {
  }

  lemma AdvanceKeeps(c: Config, s: State)
    requires SafeConfig(c) && Inv(c, s) && Proceed(c, s).Some?
    ensures Inv(c, Proceed(c, s).value)
  {
    hide OldWorld;
    hide NewWorld;
    hide SafeConfig;
    hide ProceedToCommit;
    hide ProceedFromCommit;
    hide BeforeCommit;
    if BeforeCommit(s.pc) {
      ToCommitFrame(c, s);
      NotNewBeforeCommit(c, s);
      AdvanceOld(c, s);
    } else {
      FromCommitFrame(c, s);
      if !s.abandoned {
        if OldWorld(c, s) {
          CatchOld(c, s);
        } else if s.pc == Committed {
          BustNew(c, s);
        } else {
          AdvanceNew(c, s);
        }
      }
    }
  }

  lemma NotNewBeforeCommit(c: Config, s: State)
    requires BeforeCommit(s.pc)
    ensures !NewWorld(c, s)
  {
  }

  /** A failure moves the script, and nothing else. */
  lemma FailShape(s: State)
    requires Fail(s).Some?
    ensures var s' := Fail(s).value;
      && s' == s.(pc := s'.pc, abandoned := s'.abandoned) && !BeforeCommit(s'.pc)
      && (AfterMove(s'.pc) ==> s.pc == WindowClosed)
  {
  }

  lemma BreakOld(c: Config, s: State)
    requires OldWorld(c, s) && Fail(s).Some?
    ensures OldWorld(c, Fail(s).value)
  {
    FailShape(s);
    hide Fail;
    SameSessions(s, Fail(s).value);
    hide SourceQuiet;
    hide WillBeQuiet;
  }

  lemma BreakNew(c: Config, s: State)
    requires NewWorld(c, s) && Fail(s).Some? && !Fail(s).value.abandoned
    ensures NewWorld(c, Fail(s).value)
  {
    hide StaleSince;
    hide Current;
  }

  lemma BreakFrame(c: Config, s: State)
    requires Inv(c, s) && Fail(s).Some?
    ensures SameWorld(s, Fail(s).value)
    ensures Fail(s).value.abandoned ==> !BeforeCommit(Fail(s).value.pc)
  {
    FailShape(s);
    hide Fail;
    hide OldWorld;
    hide NewWorld;
  }

  lemma BreakKeeps(c: Config, s: State)
    requires Inv(c, s) && Fail(s).Some?
    ensures Inv(c, Fail(s).value)
  {
    BreakFrame(c, s);
    hide OldWorld;
    hide NewWorld;
    hide Fail;
    hide BeforeCommit;
    if !Fail(s).value.abandoned {
      if OldWorld(c, s) {
        BreakOld(c, s);
      } else {
        BreakNew(c, s);
      }
    }
  }

  lemma RequestOld(c: Config, s: State, p: nat, w: nat)
    requires OldWorld(c, s) && Do(c, s, Request(p, w)).Some?
    ensures OldWorld(c, Do(c, s, Request(p, w)).value)
  {
    hide SourceQuiet;
    hide WillBeQuiet;
    hide CanCommit;
    var s' := Do(c, s, Request(p, w)).value;
    assert SourceQuiet(s) ==> SourceQuiet(s') by {
      SameSessions(s, s');
    }
    assert WillBeQuiet(s) ==> WillBeQuiet(s') by {
      SameSessions(s, s');
    }
  }

  lemma RequestNew(c: Config, s: State, p: nat, w: nat)
    requires NewWorld(c, s) && Fits(s.cache, c.procs, s.now) && Do(c, s, Request(p, w)).Some?
    ensures NewWorld(c, Do(c, s, Request(p, w)).value)
  {
    var s' := Do(c, s, Request(p, w)).value;
    ResolveKeeps(s.cache, p, Dest, s.now, c.ttl, c.procs, s.committedAt);
    if |c.procs| < 2 {
      SoleProcess(c.procs, p);
    }
    SameSessions(s, s');
    hide SourceQuiet;
    hide AfterResolve;
  }

  lemma RequestKeeps(c: Config, s: State, p: nat, w: nat)
    requires Inv(c, s) && Do(c, s, Request(p, w)).Some?
    ensures Inv(c, Do(c, s, Request(p, w)).value)
  {
    hide OldWorld;
    hide NewWorld;
    ResolveFits(s.cache, p, s.control, s.now, c.ttl, c.procs);
    if !s.abandoned {
      if OldWorld(c, s) {
        RequestOld(c, s, p, w);
      } else {
        RequestNew(c, s, p, w);
      }
    }
  }

  lemma WriterOld(c: Config, s: State, l: Label)
    requires OldWorld(c, s) && Do(c, s, l).Some?
    requires l.Work? || l.Connect? || l.Put? || l.Leave? || l.Close?
    ensures OldWorld(c, Do(c, s, l).value)
  {
  }

  lemma PutNew(c: Config, s: State, w: nat, x: nat, id: nat)
    requires SafeConfig(c) && NewWorld(c, s) && Do(c, s, Put(w, x, id)).Some?
    ensures NewWorld(c, Do(c, s, Put(w, x, id)).value)
  {
    hide StaleSince;
    hide Current;
    hide Proceed;
    hide Fail;
    var s' := Do(c, s, Put(w, x, id)).value;
    if Settled(c, s) {
      SettledHasNoStragglers(c, s, w);
    }
    assert s.writers[w].host == Dest;
    SameSessions(s, s');
    hide SourceQuiet;
    hide Straggling;
  }

  lemma WriterNew(c: Config, s: State, l: Label)
    requires NewWorld(c, s) && Do(c, s, l).Some?
    requires l.Work? || l.Connect? || l.Leave? || l.Close?
    ensures NewWorld(c, Do(c, s, l).value)
  {
    hide StaleSince;
    hide Current;
    hide Proceed;
    hide Fail;
  }

  lemma WriterKeeps(c: Config, s: State, l: Label)
    requires SafeConfig(c) && Inv(c, s) && Do(c, s, l).Some?
    requires l.Work? || l.Connect? || l.Put? || l.Leave? || l.Close?
    ensures Inv(c, Do(c, s, l).value)
  {
    hide OldWorld;
    hide NewWorld;
    hide SafeConfig;
    if !s.abandoned {
      if OldWorld(c, s) {
        WriterOld(c, s, l);
      } else {
        if l.Put? {
          PutNew(c, s, l.w, l.s, l.id);
        } else {
          WriterNew(c, s, l);
        }
      }
    }
  }

  lemma WorldOld(c: Config, s: State, l: Label)
    requires OldWorld(c, s) && Do(c, s, l).Some?
    requires l.Crash? || l.Tick? || l.SharedExpires? || l.Evict?
    ensures OldWorld(c, Do(c, s, l).value)
  {
    hide Proceed;
    hide Fail;
    hide CanCommit;
    TimePasses(s);
  }

  /** Who cannot commit now cannot later. */
  lemma TimePasses(s: State)
    ensures SourceQuiet(s) ==> SourceQuiet(s.(now := s.now + 1))
  {
  }

  lemma TickNew(c: Config, s: State)
    requires NewWorld(c, s)
    ensures NewWorld(c, s.(now := s.now + 1))
  {
    TimePasses(s);
    hide SourceQuiet;
    hide StaleSince;
    hide Current;
  }

  /** The script dies, or the caches lose something. */
  lemma LossNew(c: Config, s: State, l: Label)
    requires NewWorld(c, s) && Do(c, s, l).Some?
    requires l.Crash? || l.SharedExpires? || l.Evict?
    ensures NewWorld(c, Do(c, s, l).value)
  {
    hide Proceed;
    hide Fail;
    SameSessions(s, Do(c, s, l).value);
    hide SourceQuiet;
  }

  lemma WorldKeeps(c: Config, s: State, l: Label)
    requires Inv(c, s) && Do(c, s, l).Some?
    requires l.Crash? || l.Tick? || l.SharedExpires? || l.Evict?
    ensures Inv(c, Do(c, s, l).value)
  {
    hide OldWorld;
    hide NewWorld;
    if !s.abandoned {
      if OldWorld(c, s) {
        WorldOld(c, s, l);
      } else {
        if l.Tick? {
          TickNew(c, s);
        } else {
          LossNew(c, s, l);
        }
      }
    }
  }

  lemma DoKeeps(c: Config, s: State, l: Label)
    requires SafeConfig(c) && Inv(c, s) && Do(c, s, l).Some?
    ensures Inv(c, Do(c, s, l).value)
  {
    hide Inv;
    match l
    case Advance => AdvanceKeeps(c, s);
    case Break => BreakKeeps(c, s);
    case Request(p, w) => RequestKeeps(c, s, p, w);
    case Work(_) => WriterKeeps(c, s, l);
    case Connect(_, _) => WriterKeeps(c, s, l);
    case Put(_, _, _) => WriterKeeps(c, s, l);
    case Leave(_) => WriterKeeps(c, s, l);
    case Close(_) => WriterKeeps(c, s, l);
    case _ => WorldKeeps(c, s, l);
  }

  lemma {:induction false} RunKeeps(c: Config, rows: set<nat>, labels: seq<Label>)
    requires SafeConfig(c)
    ensures var r := Run(c, Initial(rows), labels); r.Some? ==> Inv(c, r.value)
    decreases |labels|
  {
    hide Do;
    if labels != [] {
      RunKeeps(c, rows, labels[..|labels| - 1]);
      var r := Run(c, Initial(rows), labels[..|labels| - 1]);
      if r.Some? && Do(c, r.value, labels[|labels| - 1]).Some? {
        DoKeeps(c, r.value, labels[|labels| - 1]);
      }
    }
  }

  // ---------------------------------------------------------------- the theorem

  /**
   No accepted write is lost in any interleaving, by success, by a failure up to and including
   the transaction, by a failure after the second wait, or by the process dying anywhere.
   */
  lemma NoAcceptedWriteIsLost(c: Config, rows: set<nat>, s: State)
    requires SafeConfig(c) && Reaches(c, rows, s) && !s.abandoned
    ensures NothingLost(s)
    ensures s.pc == Done ==> s.control == Dest && s.accepted <= s.dest
    ensures s.pc == Failed && s.control == Source ==> s.accepted <= s.source
  {
    var labels: seq<Label> :| Run(c, Initial(rows), labels) == Some(s);
    RunKeeps(c, rows, labels);
  }

  /** When the first wait is over no session can write to the source, whatever was open at the fence. */
  lemma FirstWaitQuietsTheSource(c: Config, rows: set<nat>, s: State, w: nat, x: nat, id: nat)
    requires SafeConfig(c) && Reaches(c, rows, s)
    requires AfterWait(s.pc)
    ensures SourceQuiet(s)
    ensures Do(c, s, Put(w, x, id)).None?
  {
    var labels: seq<Label> :| Run(c, Initial(rows), labels) == Some(s);
    RunKeeps(c, rows, labels);
  }

  /** While the control plane names the destination, an unfenced source gets no write. */
  lemma SourceIsRetired(c: Config, rows: set<nat>, s: State, w: nat, x: nat, id: nat)
    requires SafeConfig(c) && Reaches(c, rows, s) && !s.abandoned && s.control == Dest
    requires Do(c, s, Put(w, x, id)).Some?
    ensures Do(c, s, Put(w, x, id)).value.source == s.source
  {
    var labels: seq<Label> :| Run(c, Initial(rows), labels) == Some(s);
    RunKeeps(c, rows, labels);
    if Settled(c, s) {
      SettledHasNoStragglers(c, s, w);
    }
  }

  /** Once the read_only window is closed, every process resolves the destination. */
  lemma WritesResumeAtTheDestination(c: Config, rows: set<nat>, s: State, p: nat, w: nat)
    requires SafeConfig(c) && c.life > 0 && Reaches(c, rows, s) && !s.abandoned
    requires s.pc == WindowEnded || s.pc == WindowClosed || s.pc == Done
    requires Do(c, s, Request(p, w)).Some?
    ensures Do(c, s, Request(p, w)).value.writers[w].host == Dest
  {
    var labels: seq<Label> :| Run(c, Initial(rows), labels) == Some(s);
    RunKeeps(c, rows, labels);
    ResolveKeeps(s.cache, p, Dest, s.now, c.ttl, c.procs, s.committedAt);
  }

  /** A new session takes a write exactly when it is the destination's, or the source is not fenced. */
  lemma WhoTakesWrites(c: Config, s: State, w: nat, x: nat, id: nat)
    requires Alive(c, s, w) && x !in s.sessions && id !in s.accepted
    ensures Do(c, s, Connect(w, x)).Some?
    ensures var r := Do(c, Do(c, s, Connect(w, x)).value, Put(w, x, id));
      && (r.Some? <==> s.writers[w].host == Dest || !s.fence)
      && (r.Some? ==> id in r.value.accepted && id in if s.writers[w].host == Dest then r.value.dest else r.value.source)
  {
  }

  // ---------------------------------------------------------------- where it ends

  lemma Extend(c: Config, rows: set<nat>, s: State, l: Label) returns (s': State)
    requires Reaches(c, rows, s) && Do(c, s, l).Some?
    ensures s' == Do(c, s, l).value && Reaches(c, rows, s')
  {
    hide Do;
    var labels: seq<Label> :| Run(c, Initial(rows), labels) == Some(s);
    var more := labels + [l];
    assert more[..|more| - 1] == labels;
    s' := Do(c, s, l).value;
    assert Run(c, Initial(rows), more) == Some(s');
  }

  lemma {:induction false} Wait(c: Config, rows: set<nat>, s: State, n: nat)
    requires Reaches(c, rows, s)
    ensures Reaches(c, rows, s.(now := s.now + n))
    decreases n
  {
    if n > 0 {
      var s1 := Extend(c, rows, s, Tick);
      Wait(c, rows, s1, n - 1);
      assert s1.(now := s1.now + (n - 1)) == s.(now := s.now + n);
    } else {
      assert s.(now := s.now + n) == s;
    }
  }

  /** From the start to the first wait. */
  lemma UpToTheSignal(c: Config, start: State) returns (s: State)
    requires Reaches(c, {}, start) && start.pc == Start
    ensures Reaches(c, {}, s)
    ensures s == start.(pc := Draining, window := true, fence := true, deadline := start.now + c.drain,
                        sessions := Signalled(start.sessions, start.now + c.linger))
  {
    hide Reaches;
    hide Fail;
    hide Signalled;
    hide ProceedFromCommit;
    s := Extend(c, {}, start, Advance);
    s := Extend(c, {}, s, Advance);
    s := Extend(c, {}, s, Advance);
    s := Extend(c, {}, s, Advance);
  }

  lemma InitialReaches(c: Config)
    ensures Reaches(c, {}, Initial({}))
  {
    assert Run(c, Initial({}), []) == Some(Initial({}));
  }

  /** The script up to the transaction, with no writer about. */
  lemma UpToTheTransaction(c: Config) returns (s: State)
    ensures Reaches(c, {}, s)
    ensures s == Initial({}).(pc := Ready, now := c.drain, deadline := c.drain, fence := true, window := true)
  {
    InitialReaches(c);
    hide Reaches;
    hide Proceed;
    s := UpToTheSignal(c, Initial({}));
    assert s.sessions == map[];
    Wait(c, {}, s, c.drain);
    s := s.(now := s.now + c.drain);
    s := ThroughTheCopy(c, s);
  }

  /** From the end of the first wait to the transaction. */
  lemma ThroughTheCopy(c: Config, start: State) returns (s: State)
    requires Reaches(c, {}, start) && start.pc == Draining && start.now >= start.deadline
    ensures Reaches(c, {}, s) && s == start.(pc := Ready, dump := start.source, dest := start.source)
  {
    hide Reaches;
    hide Fail;
    s := Extend(c, {}, start, Advance);
    s := Extend(c, {}, s, Advance);
    s := Extend(c, {}, s, Advance);
    s := CopyOfTheDump(c, s);
  }

  lemma CopyOfTheDump(c: Config, start: State) returns (s: State)
    requires Reaches(c, {}, start) && start.pc == Dumped
    ensures Reaches(c, {}, s) && s == start.(pc := Ready, dest := start.dump)
  {
    hide Reaches;
    hide Fail;
    s := Extend(c, {}, start, Advance);
    s := Extend(c, {}, s, Advance);
    s := Extend(c, {}, s, Advance);
    s := Extend(c, {}, s, Advance);
  }

  /** A writer with the old address, still alive when the source is writable again, loses a write. */
  lemma StragglerLosesAWrite(c: Config, s: State, w: nat) returns (s': State)
    requires Reaches(c, {}, s) && Alive(c, s, w) && s.writers[w].host == Source
    requires s.control == Dest && !s.fence && s.sessions == map[] && s.accepted == {} && s.dest == {}
    ensures Reaches(c, {}, s') && !NothingLost(s') && s'.abandoned == s.abandoned
  {
    hide Reaches;
    hide Proceed;
    hide Fail;
    s' := Extend(c, {}, s, Connect(w, 0));
    s' := Extend(c, {}, s', Put(w, 0, 7));
    assert 7 in s'.accepted && 7 !in s'.dest;
  }

  /** A worker that read the old address just before the transaction, at the end of the wait. */
  lemma SlowWorker(c: Config, start: State) returns (s: State)
    requires Reaches(c, {}, start)
    requires start == Initial({}).(pc := Ready, now := c.drain, deadline := c.drain, fence := true, window := true)
    ensures Reaches(c, {}, s) && s.pc == CutoverDraining && s.now == s.deadline == c.drain + c.cutoverDrain
    ensures s.writers == map[0 := Writer(Source, c.drain)]
    ensures s.control == Dest && s.sessions == map[] && s.accepted == {} && s.dest == {} && !s.abandoned
  {
    hide Reaches;
    hide Fail;
    s := Extend(c, {}, start, Work(0));
    s := Extend(c, {}, s, Advance);
    s := Extend(c, {}, s, Advance);
    Wait(c, {}, s, c.cutoverDrain);
    s := s.(now := s.now + c.cutoverDrain);
  }

  /** One writable session, opened before the fence, and signalled with all the others. */
  lemma OpenSessionSignalled(c: Config) returns (s: State)
    requires c.life > 0
    ensures Reaches(c, {}, s)
    ensures s == Initial({}).(pc := Draining, deadline := c.drain, fence := true, window := true,
                              writers := map[0 := Writer(Source, 0)],
                              sessions := map[0 := Session(Source, false, Some(c.linger))])
  {
    InitialReaches(c);
    hide Reaches;
    hide Proceed;
    hide Fail;
    s := Extend(c, {}, Initial({}), Work(0));
    s := Extend(c, {}, s, Connect(0, 0));
    s := UpToTheSignal(c, s);
    assert s.sessions == map[0 := Session(Source, false, Some(c.linger))];
  }

  /** A backend that outlives the first wait commits behind the dump. */
  lemma SignalledBackendLosesAWrite(c: Config) returns (s: State)
    requires c.life > 0 && c.drain < c.linger
    ensures Reaches(c, {}, s) && !s.abandoned && !NothingLost(s)
  {
    hide Reaches;
    hide Fail;
    s := OpenSessionSignalled(c);
    Wait(c, {}, s, c.drain);
    s := s.(now := s.now + c.drain);
    s := Extend(c, {}, s, Advance);
    s := Extend(c, {}, s, Advance);
    s := Extend(c, {}, s, Advance);
    s := Extend(c, {}, s, Work(1));
    s := Extend(c, {}, s, Put(1, 0, 7));
    s := CopyOfTheDump(c, s);
    s := Extend(c, {}, s, Advance);
    assert 7 in s.accepted && 7 !in s.dest;
  }

  /** Too short a wait loses a write even when everything succeeds. */
  lemma ShortWaitLosesAWrite(c: Config) returns (s: State)
    requires c.life > 0 && !SafeConfig(c)
    ensures Reaches(c, {}, s) && !s.abandoned && !NothingLost(s)
  {
    hide Reaches;
    if c.drain < c.linger {
      s := SignalledBackendLosesAWrite(c);
      return;
    }
    s := UpToTheTransaction(c);
    var w := if |c.procs| >= 2 then 2 else 0;
    if |c.procs| >= 2 {
      s := StaleAddressKept(c, s);
    } else {
      s := SlowWorker(c, s);
    }
    s := Extend(c, {}, s, Advance);
    s := Extend(c, {}, s, Advance);
    s := Extend(c, {}, s, Advance);
    s := StragglerLosesAWrite(c, s, w);
  }

  /** Two processes across the cutover: `q` refills the shared entry, `p` still has the old address. */
  lemma StaleAddressCached(c: Config, start: State, p: nat, q: nat) returns (s: State)
    requires p in c.procs && q in c.procs && p != q
    requires Reaches(c, {}, start)
    requires start == Initial({}).(pc := Ready, now := c.drain, deadline := c.drain, fence := true, window := true)
    ensures Reaches(c, {}, s)
    ensures s == start.(pc := CutoverDraining, control := Dest, committedAt := c.drain, bustedAt := c.drain,
                        deadline := c.drain + c.cutoverDrain, writers := s.writers, cache := s.cache)
    ensures s.writers.Keys == {0, 1}
    ensures Hit(s.cache, p, c.drain, c.ttl) && s.cache.local[p] == Entry(Source, c.drain)
  {
    hide Reaches;
    hide Fail;
    s := Extend(c, {}, start, Request(p, 0));
    s := Extend(c, {}, s, Advance);
    s := Extend(c, {}, s, Advance);
    s := Extend(c, {}, s, Request(q, 1));
  }

  /** It is handed out for a whole TTL, and used for the life of a request after that. */
  lemma StaleAddressKept(c: Config, start: State) returns (s: State)
    requires |c.procs| >= 2 && c.cutoverDrain < c.ttl + c.life
    requires Reaches(c, {}, start)
    requires start == Initial({}).(pc := Ready, now := c.drain, deadline := c.drain, fence := true, window := true)
    ensures Reaches(c, {}, s) && s.pc == CutoverDraining && s.now >= s.deadline
    ensures 2 in s.writers && s.writers[2].host == Source && (c.life > 0 ==> s.now < s.writers[2].since + c.life)
    ensures s.control == Dest && s.sessions == map[] && s.accepted == {} && s.dest == {} && !s.abandoned
  {
    hide Reaches;
    hide Proceed;
    hide Fail;
    var p, q := TwoOf(c.procs);
    s := StaleAddressCached(c, start, p, q);
    var m := if c.cutoverDrain <= c.ttl then c.cutoverDrain else c.ttl;
    Wait(c, {}, s, m);
    s := s.(now := s.now + m);
    assert Hit(s.cache, p, s.now, c.ttl);
    s := Extend(c, {}, s, Request(p, 2));
    Wait(c, {}, s, c.cutoverDrain - m);
    s := s.(now := s.now + (c.cutoverDrain - m));
  }

  /**
   The promise holds exactly when the first wait covers a signalled backend and the second the
   life of an old address: one request for a fleet of one process, a whole cache TTL more as soon
   as there are two.
   */
  lemma NothingIsLostIff(c: Config)
    requires c.life > 0
    ensures SafeConfig(c) <==> forall rows, s :: Reaches(c, rows, s) && !s.abandoned ==> NothingLost(s)
  {
    if SafeConfig(c) {
      forall rows, s | Reaches(c, rows, s) && !s.abandoned
        ensures NothingLost(s)
      {
        NoAcceptedWriteIsLost(c, rows, s);
      }
    } else {
      var s := ShortWaitLosesAWrite(c);
    }
  }

  /** With the bust after the commit failing as well, no waits are enough. */
  lemma NothingIsEverLostIff(c: Config, bustMayFail: bool)
    requires c.life > 0
    ensures SafeConfig(c) && !bustMayFail <==>
      forall rows, s :: Reaches(c, rows, s) && (bustMayFail || !s.abandoned) ==> NothingLost(s)
  {
    NothingIsLostIff(c);
    if bustMayFail {
      var s := FailedBustLosesAWrite(c);
    }
    hide Reaches;
    hide NothingLost;
    hide SafeConfig;
  }

  /** A cache bust that fails after the commit unfences at once, whatever the waits are. */
  lemma FailedBustLosesAWrite(c: Config) returns (s: State)
    requires c.life > 0
    ensures Reaches(c, {}, s) && s.abandoned && !NothingLost(s)
  {
    hide Reaches;
    s := UpToTheTransaction(c);
    s := Extend(c, {}, s, Work(0));
    s := Extend(c, {}, s, Advance);
    s := Extend(c, {}, s, Break);
    s := Extend(c, {}, s, Advance);
    s := StragglerLosesAWrite(c, s, 0);
  }
}
