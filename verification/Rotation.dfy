/**
 Rotating per-tenant database credentials: scripts/tenant-rotate-db-creds.ts over the role
 primitives of packages/db-control/src/tenant-db-roles.ts, while processes keep resolving and
 connecting.

 A history is a list of labels: a batch run of the script statement by statement (it may fail
 for one tenant, or die anywhere), the clock, and the requests. Runs are serial.
 */
module Rotation {
  import opened Basics
  import opened TenantResolver

  datatype Slot = A | B

  function Other(s: Slot): Slot {
    if s == A then B else A
  }

  /** A login role: Postgres checks both at connect time. */
  datatype Role = Role(canLogin: bool, password: Option<nat>)
  datatype Cred = Cred(slot: Slot, password: nat)

  /** `tenant_db_credentials`: no row, a row on one of the two slots, or a role that is neither. */
  datatype Stored = NoRow | OnSlot(cred: Cred) | Foreign

  /** A request that has resolved a credential and may still connect with it. */
  datatype Holder = Holder(cred: Cred, since: nat)

  datatype Tenant = Tenant(
    a: Role, b: Role, row: Stored, cache: Cache<Cred>, holders: map<nat, Holder>,
    committedAt: int, bustedAt: int, busted: bool)

  function RoleOf(t: Tenant, s: Slot): Role {
    if s == A then t.a else t.b
  }

  function SetRole(t: Tenant, s: Slot, r: Role): Tenant {
    if s == A then t.(a := r) else t.(b := r)
  }

  predicate Accepts(t: Tenant, c: Cred) {
    RoleOf(t, c.slot) == Role(true, Some(c.password))
  }

  datatype Stage = Untouched | Ensured(cred: Cred) | Verified(cred: Cred) | Committed

  /** A tenant that moved off a slot, to be retired after the grace period. */
  datatype Moved = Moved(tenant: nat, from: Slot)

  datatype Pc =
    | Idle
    | Rotating(queue: seq<nat>, stage: Stage, rotated: seq<Moved>)
    | Sleeping(until: nat, retire: seq<Moved>)
    | Retiring(retire: seq<Moved>)

  /**
   `hold`: how long a request may still connect with what it resolved. `spacing`: how long after a
   rotation of a tenant the next one starts. `mayDie`: the script may be cut short anywhere.
   */
  datatype Config = Config(
    procs: set<nat>, ttl: nat, hold: nat, grace: nat, spacing: nat, bustsSucceed: bool, mayDie: bool)

  datatype Fleet = Fleet(tenants: map<nat, Tenant>, now: nat, pc: Pc, nextPassword: nat)

  datatype Label =
    | Start(targets: seq<nat>) | Ensure | Verify | Commit | BustOk | BustFailed | Skip
    | EndLoop(noRetire: bool) | Wake | Retire | RetireFails | End | Crash
    | Tick | Request(t: nat, p: nat, r: nat) | Connect(t: nat, r: nat) | Leave(t: nat, r: nat)
    | SharedExpires(t: nat) | Evict(t: nat, p: nat)

  predicate DistinctTargets(ts: seq<nat>) {
    forall i, j :: 0 <= i < j < |ts| ==> ts[i] != ts[j]
  }

  /** The slot a rotation writes: never the one in use. */
  function StandbyOf(t: Tenant): Slot {
    if t.row.OnSlot? then Other(t.row.cred.slot) else A
  }

  /** The four things the script does to a tenant. */
  function Issue(t: Tenant, cred: Cred): Tenant {
    SetRole(t, cred.slot, Role(true, Some(cred.password)))
  }

  function Adopt(t: Tenant, cred: Cred, now: nat): Tenant {
    t.(row := OnSlot(cred), committedAt := now, busted := false)
  }

  function CacheBusted(t: Tenant, now: nat): Tenant {
    t.(cache := Bust(t.cache), bustedAt := now, busted := true)
  }

  function Retired(t: Tenant, slot: Slot): Tenant {
    SetRole(t, slot, Role(false, None))
  }

  function NextTenant(pc: Pc): Pc
    requires pc.Rotating? && pc.queue != []
  {
    Rotating(pc.queue[1..], Untouched, pc.rotated)
  }

  /** One statement of the script. */
  function Script(c: Config, s: Fleet, l: Label): Option<Fleet> {
    match s.pc
    case Idle =>
      if l.Start? && DistinctTargets(l.targets) && (forall i :: 0 <= i < |l.targets| ==> l.targets[i] in s.tenants)
      then Some(s.(pc := Rotating(l.targets, Untouched, []))) else None
    case Rotating(queue, stage, rotated) =>
      if queue == [] then
        if !l.EndLoop? then None
        else if l.noRetire || rotated == [] then Some(s.(pc := Idle))
        else Some(s.(pc := Sleeping(s.now + c.grace, rotated)))
      else if queue[0] !in s.tenants then None
      else RotateOne(c, s, l)
    case Sleeping(until, retire) =>
      if l == Wake && s.now >= until then Some(s.(pc := Retiring(retire))) else None
    case Retiring(retire) =>
      if retire == [] then if l == End then Some(s.(pc := Idle)) else None
      else RetireOne(s, l)
  }

  function RetireOne(s: Fleet, l: Label): Option<Fleet>
    requires s.pc.Retiring? && s.pc.retire != []
  {
    var id, rest := s.pc.retire[0].tenant, Retiring(s.pc.retire[1..]);
    if l == RetireFails then Some(s.(pc := rest))
    else if l == Retire && id in s.tenants then
      Some(s.(tenants := s.tenants[id := Retired(s.tenants[id], s.pc.retire[0].from)], pc := rest))
    else None
  }

  /** The statements for the tenant at the head of the queue. */
  function RotateOne(c: Config, s: Fleet, l: Label): Option<Fleet>
    requires s.pc.Rotating? && s.pc.queue != [] && s.pc.queue[0] in s.tenants
  {
    var id := s.pc.queue[0];
    var t := s.tenants[id];
    match s.pc.stage
    case Untouched =>
      if l == Skip then Some(s.(pc := NextTenant(s.pc)))
      else if l == Ensure && !t.row.Foreign? then
        var cred := Cred(StandbyOf(t), s.nextPassword);
        Some(s.(tenants := s.tenants[id := Issue(t, cred)],
                nextPassword := s.nextPassword + 1,
                pc := s.pc.(stage := Ensured(cred))))
      else None
    case Ensured(cred) =>
      if l == Skip then Some(s.(pc := NextTenant(s.pc)))
      else if l == Verify && Accepts(t, cred) then Some(s.(pc := s.pc.(stage := Verified(cred))))
      else None
    case Verified(cred) =>
      if l == Skip then Some(s.(pc := NextTenant(s.pc)))
      else if l == Commit then
        var rotated := if t.row.OnSlot? then s.pc.rotated + [Moved(id, t.row.cred.slot)] else s.pc.rotated;
        Some(s.(tenants := s.tenants[id := Adopt(t, cred, s.now)],
                pc := s.pc.(stage := Committed, rotated := rotated)))
      else None
    case Committed =>
      if l == BustOk then
        Some(s.(tenants := s.tenants[id := CacheBusted(t, s.now)],
                pc := NextTenant(s.pc)))
      else if l == BustFailed && !c.bustsSucceed then Some(s.(pc := NextTenant(s.pc)))
      else None
  }

  predicate Alive(c: Config, now: nat, h: Holder) {
    now < h.since + c.hold
  }

  /** The clock, the caches and the requests. */
  function World(c: Config, s: Fleet, l: Label): Option<Fleet> {
    match l
    case Crash => if c.mayDie then Some(s.(pc := Idle)) else None
    case Tick => Some(s.(now := s.now + 1))
    case Request(id, p, r) =>
      if id in s.tenants && p in c.procs && s.tenants[id].row.OnSlot? && r !in s.tenants[id].holders then
        Some(s.(tenants := s.tenants[id := Resolve(c, s.tenants[id], p, r, s.now)]))
      else None
    case Connect(id, r) =>
      if id in s.tenants && r in s.tenants[id].holders && Alive(c, s.now, s.tenants[id].holders[r]) then Some(s) else None
    case Leave(id, r) =>
      if id in s.tenants then
        Some(s.(tenants := s.tenants[id := s.tenants[id].(holders := s.tenants[id].holders - {r})]))
      else None
    case SharedExpires(id) =>
      if id in s.tenants then
        Some(s.(tenants := s.tenants[id := s.tenants[id].(cache := Bust(s.tenants[id].cache))]))
      else None
    case Evict(id, p) =>
      if id in s.tenants then
        Some(s.(tenants := s.tenants[id := s.tenants[id].(cache := Forget(s.tenants[id].cache, p))]))
      else None
    case _ => None
  }

  function Resolve(c: Config, t: Tenant, p: nat, r: nat, now: nat): Tenant
    requires t.row.OnSlot?
  {
    t.(holders := t.holders[r := Holder(Resolved(t.cache, p, t.row.cred, now, c.ttl), now)],
       cache := AfterResolve(t.cache, p, t.row.cred, now, c.ttl))
  }

  predicate IsScript(l: Label) {
    l.Start? || l.Ensure? || l.Verify? || l.Commit? || l.BustOk? || l.BustFailed? || l.Skip?
    || l.EndLoop? || l.Wake? || l.Retire? || l.RetireFails? || l.End?
  }

  function Do(c: Config, s: Fleet, l: Label): Option<Fleet> {
    if IsScript(l) then Script(c, s, l) else World(c, s, l)
  }

  function Run(c: Config, s: Fleet, labels: seq<Label>): Option<Fleet>
    decreases |labels|
  {
    if labels == [] then Some(s)
    else
      match Run(c, s, labels[..|labels| - 1])
      case None => None
      case Some(s') => Do(c, s', labels[|labels| - 1])
  }

  // ---------------------------------------------------------------- the control plane's row

  /** The row, if it names a slot, names one whose role can log in with the sealed password. */
  predicate RowUsable(t: Tenant) {
    t.row.OnSlot? ==> Accepts(t, t.row.cred)
  }

  ghost predicate StandbyReady(s: Fleet, cred: Cred) {
    && s.pc.Rotating? && s.pc.queue != [] && s.pc.queue[0] in s.tenants
    && var t := s.tenants[s.pc.queue[0]];
       cred.slot == StandbyOf(t) && !t.row.Foreign?
  }

  /** Slots waiting to be retired are not in use, and their tenants are done with. */
  ghost predicate OffSlot(s: Fleet, m: Moved) {
    && m.tenant in s.tenants && s.tenants[m.tenant].row.OnSlot?
    && s.tenants[m.tenant].row.cred.slot == Other(m.from)
  }

  ghost predicate AllOff(s: Fleet, ms: seq<Moved>) {
    forall i :: 0 <= i < |ms| ==> OffSlot(s, ms[i])
  }

  ghost predicate NoneOf(ms: seq<Moved>, queue: seq<nat>) {
    forall i, j :: 0 <= i < |ms| && 0 <= j < |queue| ==> ms[i].tenant != queue[j]
  }

  /** The tenants whose row has not been repointed in this batch. */
  function Ahead(pc: Pc): seq<nat>
    requires pc.Rotating?
  {
    if pc.stage.Committed? && pc.queue != [] then pc.queue[1..] else pc.queue
  }

  /** What the pc says about the head of the queue. */
  ghost predicate StageOk(s: Fleet) {
    s.pc.Rotating? ==>
      && DistinctTargets(s.pc.queue)
      && (s.pc.stage.Committed? ==>
            s.pc.queue != [] && s.pc.queue[0] in s.tenants && s.tenants[s.pc.queue[0]].row.OnSlot?)
      && (s.pc.stage.Ensured? ==> StandbyReady(s, s.pc.stage.cred))
      && (s.pc.stage.Verified? ==>
            StandbyReady(s, s.pc.stage.cred) && Accepts(s.tenants[s.pc.queue[0]], s.pc.stage.cred))
  }

  ghost predicate PcOk(s: Fleet) {
    match s.pc
    case Idle => true
    case Rotating(queue, stage, rotated) => StageOk(s) && AllOff(s, rotated) && NoneOf(rotated, Ahead(s.pc))
    case Sleeping(_, retire) => AllOff(s, retire)
    case Retiring(retire) => AllOff(s, retire)
  }

  ghost predicate RowsUsable(s: Fleet) {
    PcOk(s) && forall id :: id in s.tenants ==> RowUsable(s.tenants[id])
  }

  lemma ScriptKeepsRows(c: Config, s: Fleet, l: Label)
    requires RowsUsable(s) && Script(c, s, l).Some?
    ensures RowsUsable(Script(c, s, l).value)
  {
    hide RotateOne;
    hide RetireOne;
    if s.pc.Rotating? && s.pc.queue != [] {
      RotateKeepsRows(c, s, l);
    } else if s.pc.Retiring? && s.pc.retire != [] {
      RetireKeepsRows(s, l);
    }
  }

  lemma RetireKeepsRows(s: Fleet, l: Label)
    requires RowsUsable(s) && s.pc.Retiring? && s.pc.retire != [] && RetireOne(s, l).Some?
    ensures RowsUsable(RetireOne(s, l).value)
  {
    var s' := RetireOne(s, l).value;
    assert OffSlot(s, s.pc.retire[0]);
    forall i | 0 <= i < |s'.pc.retire|
      ensures OffSlot(s', s'.pc.retire[i])
    {
      assert OffSlot(s, s.pc.retire[i + 1]);
    }
    forall x | x in s'.tenants
      ensures RowUsable(s'.tenants[x])
    {
      assert RowUsable(s.tenants[x]);
    }
  }

  lemma RotateKeepsRows(c: Config, s: Fleet, l: Label)
    requires RowsUsable(s) && s.pc.Rotating? && s.pc.queue != [] && s.pc.queue[0] in s.tenants
    requires RotateOne(c, s, l).Some?
    ensures RowsUsable(RotateOne(c, s, l).value)
  {
    RotateKeepsPc(c, s, l);
    var s' := RotateOne(c, s, l).value;
    forall x | x in s'.tenants
      ensures RowUsable(s'.tenants[x])
    {
      assert RowUsable(s.tenants[x]);
    }
  }

  /** What a step of one tenant leaves of the others' slots. */
  lemma OthersStayOff(c: Config, s: Fleet, l: Label, m: Moved)
    requires s.pc.Rotating? && s.pc.queue != [] && s.pc.queue[0] in s.tenants && RotateOne(c, s, l).Some?
    requires OffSlot(s, m) && m.tenant != s.pc.queue[0]
    ensures OffSlot(RotateOne(c, s, l).value, m)
  {
  }

  lemma RotateKeepsPc(c: Config, s: Fleet, l: Label)
    requires RowsUsable(s) && s.pc.Rotating? && s.pc.queue != [] && s.pc.queue[0] in s.tenants
    requires RotateOne(c, s, l).Some?
    ensures PcOk(RotateOne(c, s, l).value)
  {
    hide AllOff;
    hide NoneOf;
    RotateKeepsOff(c, s, l);
    StageStays(c, s, l);
    hide RotateOne;
    hide StageOk;
  }

  lemma StageStays(c: Config, s: Fleet, l: Label)
    requires StageOk(s) && s.pc.Rotating? && s.pc.queue != [] && s.pc.queue[0] in s.tenants
    requires RotateOne(c, s, l).Some?
    ensures RotateOne(c, s, l).value.pc.Rotating? && StageOk(RotateOne(c, s, l).value)
  {
  }

  lemma RotateKeepsOff(c: Config, s: Fleet, l: Label)
    requires RowsUsable(s) && s.pc.Rotating? && s.pc.queue != [] && s.pc.queue[0] in s.tenants
    requires RotateOne(c, s, l).Some?
    ensures RotateOne(c, s, l).value.pc.Rotating?
    ensures AllOff(RotateOne(c, s, l).value, RotateOne(c, s, l).value.pc.rotated)
    ensures NoneOf(RotateOne(c, s, l).value.pc.rotated, Ahead(RotateOne(c, s, l).value.pc))
  {
    if l == Commit {
      CommitKeepsOff(c, s);
    } else {
      OthersKeepOff(c, s, l);
    }
    hide RotateOne;
    hide RowsUsable;
    hide AllOff;
    hide NoneOf;
  }

  lemma CommitKeepsOff(c: Config, s: Fleet)
    requires RowsUsable(s) && s.pc.Rotating? && s.pc.queue != [] && s.pc.queue[0] in s.tenants
    requires RotateOne(c, s, Commit).Some?
    ensures var s' := RotateOne(c, s, Commit).value;
      s'.pc.Rotating? && AllOff(s', s'.pc.rotated) && NoneOf(s'.pc.rotated, Ahead(s'.pc))
  {
    var s' := RotateOne(c, s, Commit).value;
    forall i | 0 <= i < |s.pc.rotated|
      ensures OffSlot(s', s.pc.rotated[i])
    {
      OthersStayOff(c, s, Commit, s.pc.rotated[i]);
    }
  }

  lemma OthersKeepOff(c: Config, s: Fleet, l: Label)
    requires RowsUsable(s) && s.pc.Rotating? && s.pc.queue != [] && s.pc.queue[0] in s.tenants
    requires l != Commit && RotateOne(c, s, l).Some?
    ensures var s' := RotateOne(c, s, l).value;
      s'.pc.Rotating? && AllOff(s', s'.pc.rotated) && NoneOf(s'.pc.rotated, Ahead(s'.pc))
  {
  }

  /** Others do not touch rows and roles, and a crash only ends the script. */
  lemma WorldShape(c: Config, s: Fleet, l: Label)
    requires World(c, s, l).Some?
    ensures var s' := World(c, s, l).value;
      && (s'.pc == s.pc || s'.pc == Idle) && s'.tenants.Keys == s.tenants.Keys
      && forall id :: id in s.tenants ==>
           var t, t' := s.tenants[id], s'.tenants[id]; t'.a == t.a && t'.b == t.b && t'.row == t.row
  {
  }

  lemma WorldKeepsRows(c: Config, s: Fleet, l: Label)
    requires RowsUsable(s) && World(c, s, l).Some?
    ensures RowsUsable(World(c, s, l).value)
  {
    WorldShape(c, s, l);
    hide World;
    var s' := World(c, s, l).value;
    forall x | x in s'.tenants
      ensures RowUsable(s'.tenants[x])
    {
      assert RowUsable(s.tenants[x]);
    }
  }

  /** Any history keeps every row usable: rotations may fail or die at any statement. */
  lemma {:induction false} RowAlwaysUsable(c: Config, s: Fleet, labels: seq<Label>)
    requires RowsUsable(s) && Run(c, s, labels).Some?
    ensures RowsUsable(Run(c, s, labels).value)
    decreases |labels|
  {
    hide RowsUsable;
    hide Script;
    hide World;
    if labels != [] {
      RowAlwaysUsable(c, s, labels[..|labels| - 1]);
      var s1 := Run(c, s, labels[..|labels| - 1]).value;
      if IsScript(labels[|labels| - 1]) {
        ScriptKeepsRows(c, s1, labels[|labels| - 1]);
      } else {
        WorldKeepsRows(c, s1, labels[|labels| - 1]);
      }
    }
  }

  /** The role a tenant's row names before a step, after it. */
  ghost predicate SlotKept(s: Fleet, s': Fleet, id: nat)
    requires id in s.tenants && s.tenants[id].row.OnSlot?
  {
    id in s'.tenants
    && RoleOf(s'.tenants[id], s.tenants[id].row.cred.slot) == RoleOf(s.tenants[id], s.tenants[id].row.cred.slot)
  }

  lemma RetireKeepsSlot(s: Fleet, l: Label, id: nat)
    requires RowsUsable(s) && s.pc.Retiring? && s.pc.retire != [] && RetireOne(s, l).Some?
    requires id in s.tenants && s.tenants[id].row.OnSlot?
    ensures SlotKept(s, RetireOne(s, l).value, id)
  {
    assert OffSlot(s, s.pc.retire[0]);
  }

  lemma RotateKeepsSlot(c: Config, s: Fleet, l: Label, id: nat)
    requires s.pc.Rotating? && s.pc.queue != [] && s.pc.queue[0] in s.tenants && RotateOne(c, s, l).Some?
    requires id in s.tenants && s.tenants[id].row.OnSlot?
    ensures SlotKept(s, RotateOne(c, s, l).value, id)
  {
  }

  lemma WorldKeepsSlot(c: Config, s: Fleet, l: Label, id: nat)
    requires World(c, s, l).Some? && id in s.tenants && s.tenants[id].row.OnSlot?
    ensures SlotKept(s, World(c, s, l).value, id)
  {
  }

  /** The slot in use is never re-issued and never retired. */
  lemma SlotInUseIsNeverTouched(c: Config, s: Fleet, labels: seq<Label>, l: Label, id: nat)
    requires RowsUsable(s) && Run(c, s, labels).Some?
    requires var s1 := Run(c, s, labels).value;
      id in s1.tenants && s1.tenants[id].row.OnSlot? && Do(c, s1, l).Some?
    ensures SlotKept(Run(c, s, labels).value, Do(c, Run(c, s, labels).value, l).value, id)
  {
    RowAlwaysUsable(c, s, labels);
    hide Run;
    hide RotateOne;
    hide RetireOne;
    hide World;
    var s1 := Run(c, s, labels).value;
    if !IsScript(l) {
      WorldKeepsSlot(c, s1, l, id);
    } else if s1.pc.Rotating? && s1.pc.queue != [] {
      RotateKeepsSlot(c, s1, l, id);
    } else if s1.pc.Retiring? && s1.pc.retire != [] {
      RetireKeepsSlot(s1, l, id);
    }
  }

  // ---------------------------------------------------------------- the requests

  /** A request connects, and Postgres refuses what it holds. */
  predicate Refused(c: Config, s: Fleet, id: nat, r: nat) {
    && Do(c, s, Connect(id, r)).Some?
    && !Accepts(s.tenants[id], s.tenants[id].holders[r].cred)
  }

  predicate Sole(c: Config) {
    |c.procs| < 2
  }

  /**
   How long after a rotation its old credential may still be used. The cache bust shortens it
   only if it succeeds, and only when no second process can refill the shared entry.
   */
  function Straggling(c: Config): nat {
    if Sole(c) && c.bustsSucceed then c.hold else c.ttl + c.hold
  }

  /**
   How far apart rotations of one tenant have to be. A script that dies between the commit and the
   bust leaves the cache as it was, so the bust counts only if it cannot.
   */
  function Apart(c: Config): nat {
    if Sole(c) && c.bustsSucceed && !c.mayDie then c.hold else c.ttl + c.hold
  }

  predicate SafeConfig(c: Config) {
    c.grace >= Straggling(c) && c.spacing >= Apart(c)
  }

  /** Nothing but the row's credential is in use any more. */
  predicate Settled(c: Config, t: Tenant, now: nat) {
    (Sole(c) && t.busted && now >= t.bustedAt + c.hold) || now >= t.committedAt + c.ttl + c.hold
  }

  /** The end of the last rotation: its bust, or its commit when it got no further. */
  function LastRotation(t: Tenant): int {
    if t.busted then t.bustedAt else t.committedAt
  }

  /** Serial rotations of one tenant are spaced. */
  predicate Pace(c: Config, s: Fleet, l: Label) {
    l.Ensure? && s.pc.Rotating? && s.pc.queue != [] && s.pc.queue[0] in s.tenants
    && s.tenants[s.pc.queue[0]].row.OnSlot?
    ==> s.now >= LastRotation(s.tenants[s.pc.queue[0]]) + c.spacing
  }

  ghost predicate Paced(c: Config, s: Fleet, labels: seq<Label>)
    decreases |labels|
  {
    labels != [] ==>
      && Paced(c, s, labels[..|labels| - 1])
      && var before := Run(c, s, labels[..|labels| - 1]);
         before.Some? ==> Pace(c, before.value, labels[|labels| - 1])
  }

  /** An entry a process could still hand out. */
  predicate Servable(c: Config, t: Tenant, p: nat, now: nat) {
    p in t.cache.local && Live(t.cache.local[p], now, c.ttl) && (Sole(c) ==> t.cache.shared)
  }

  ghost predicate CacheOk(c: Config, t: Tenant, cred: Cred, now: nat) {
    && StaleSince(t.cache, cred, t.committedAt)
    && (Sole(c) && t.busted ==> Current(t.cache, cred))
    && (forall p :: Servable(c, t, p, now) ==> Accepts(t, t.cache.local[p].value))
  }

  ghost predicate HolderOk(c: Config, t: Tenant, cred: Cred, now: nat, h: Holder) {
    && h.since <= now
    && (h.cred != cred ==> h.since <= t.committedAt + c.ttl && (Sole(c) && t.busted ==> h.since <= t.bustedAt))
    && (Alive(c, now, h) ==> Accepts(t, h.cred))
  }

  ghost predicate HoldersOk(c: Config, t: Tenant, cred: Cred, now: nat) {
    forall r :: r in t.holders ==> HolderOk(c, t, cred, now, t.holders[r])
  }

  ghost predicate TenantOk(c: Config, t: Tenant, now: nat) {
    && Fits(t.cache, c.procs, now) && t.committedAt <= now && (t.busted ==> t.committedAt <= t.bustedAt <= now)
    && if t.row.OnSlot? then CacheOk(c, t, t.row.cred, now) && HoldersOk(c, t, t.row.cred, now)
       else t.cache.local == map[] && t.holders == map[]
  }

  /** On a settled tenant the other slot may be rewritten. */
  lemma OtherSlotIsFree(c: Config, t: Tenant, now: nat, slot: Slot, role: Role)
    requires c.hold > 0 && TenantOk(c, t, now) && RowUsable(t)
    requires t.row.OnSlot? ==> Settled(c, t, now) && slot == Other(t.row.cred.slot)
    ensures TenantOk(c, SetRole(t, slot, role), now)
  {
    var t' := SetRole(t, slot, role);
    if t.row.OnSlot? {
      forall r | r in t'.holders
        ensures HolderOk(c, t', t.row.cred, now, t'.holders[r])
      {
        assert HolderOk(c, t, t.row.cred, now, t.holders[r]);
      }
    }
  }

  lemma AdoptKeeps(c: Config, t: Tenant, now: nat, cred: Cred)
    requires TenantOk(c, t, now) && Accepts(t, cred)
    ensures TenantOk(c, Adopt(t, cred, now), now)
  {
    var t' := Adopt(t, cred, now);
    forall r | r in t'.holders
      ensures HolderOk(c, t', cred, now, t'.holders[r])
    {
      assert HolderOk(c, t, t.row.cred, now, t.holders[r]);
    }
  }

  lemma BustKeeps(c: Config, t: Tenant, now: nat)
    requires TenantOk(c, t, now)
    ensures TenantOk(c, CacheBusted(t, now), now)
  {
    var t' := CacheBusted(t, now);
    if t.row.OnSlot? {
      BustIsCurrent(t.cache, t.row.cred);
      forall r | r in t'.holders
        ensures HolderOk(c, t', t.row.cred, now, t'.holders[r])
      {
        assert HolderOk(c, t, t.row.cred, now, t.holders[r]);
      }
    }
  }

  lemma ResolveKeepsTenant(c: Config, t: Tenant, p: nat, r: nat, now: nat)
    requires TenantOk(c, t, now) && RowUsable(t) && t.row.OnSlot? && p in c.procs
    ensures TenantOk(c, Resolve(c, t, p, r, now), now)
  {
    var t', cred := Resolve(c, t, p, r, now), t.row.cred;
    ResolveKeeps(t.cache, p, cred, now, c.ttl, c.procs, t.committedAt);
    if Sole(c) {
      SoleProcess(c.procs, p);
    }
    assert HolderOk(c, t', cred, now, t'.holders[r]);
    forall x | x in t'.holders
      ensures HolderOk(c, t', cred, now, t'.holders[x])
    {
      assert x != r ==> HolderOk(c, t, cred, now, t.holders[x]);
    }
    forall q | Servable(c, t', q, now)
      ensures Accepts(t', t'.cache.local[q].value)
    {
      assert Hit(t.cache, p, now, c.ttl) || q != p ==> !Servable(c, t, q, now) ==> Sole(c);
    }
  }

  /** Entries expire or are evicted, requests leave. */
  ghost predicate Fades(t: Tenant, t': Tenant) {
    && t' == t.(holders := t'.holders, cache := t'.cache)
    && (forall r :: r in t'.holders ==> r in t.holders && t'.holders[r] == t.holders[r])
    && (forall p :: p in t'.cache.local ==> p in t.cache.local && t'.cache.local[p] == t.cache.local[p])
    && (t'.cache.shared ==> t.cache.shared)
  }

  lemma FadingKeeps(c: Config, t: Tenant, now: nat, t': Tenant, now': nat)
    requires TenantOk(c, t, now) && now <= now' && Fades(t, t')
    ensures TenantOk(c, t', now')
  {
    if t.row.OnSlot? {
      forall r | r in t'.holders
        ensures HolderOk(c, t', t.row.cred, now', t'.holders[r])
      {
        assert HolderOk(c, t, t.row.cred, now, t.holders[r]);
      }
      forall p | Servable(c, t', p, now')
        ensures Accepts(t', t'.cache.local[p].value)
      {
        assert Servable(c, t, p, now);
      }
    } else {
      assert t'.holders.Keys == {} && t'.cache.local.Keys == {};
    }
  }

  // ---------------------------------------------------------------- the fleet

  ghost predicate TenantsOk(c: Config, s: Fleet) {
    forall id :: id in s.tenants ==> TenantOk(c, s.tenants[id], s.now)
  }

  /** By `time`, the whole grace has passed since the commit and since the bust. */
  predicate Waited(c: Config, t: Tenant, time: int) {
    t.committedAt + c.grace <= time && (c.bustsSucceed ==> t.busted && t.bustedAt + c.grace <= time)
  }

  ghost predicate AllWaited(c: Config, s: Fleet, ms: seq<Moved>, time: int) {
    forall i :: 0 <= i < |ms| ==> ms[i].tenant in s.tenants && Waited(c, s.tenants[ms[i].tenant], time)
  }

  /** Every tenant moved so far is busted, but perhaps the one being moved. */
  ghost predicate AllBusted(c: Config, s: Fleet, ms: seq<Moved>) {
    forall i :: 0 <= i < |ms| ==>
      ms[i].tenant in s.tenants
      && (c.bustsSucceed && !(s.pc.Rotating? && s.pc.stage.Committed? && s.pc.queue != [] && s.pc.queue[0] == ms[i].tenant)
          ==> s.tenants[ms[i].tenant].busted)
  }

  ghost predicate InThePast(s: Fleet) {
    forall id :: id in s.tenants ==>
      s.tenants[id].committedAt <= s.now && (s.tenants[id].busted ==> s.tenants[id].bustedAt <= s.now)
  }

  ghost predicate Waits(c: Config, s: Fleet) {
    match s.pc
    case Idle => true
    case Rotating(_, _, rotated) => AllBusted(c, s, rotated)
    case Sleeping(until, retire) => AllWaited(c, s, retire, until)
    case Retiring(retire) => AllWaited(c, s, retire, s.now)
  }

  /** A script that cannot die, with busts that succeed, leaves no tenant unbusted behind. */
  ghost predicate NoneLeftBehind(c: Config, s: Fleet) {
    c.bustsSucceed && !c.mayDie ==> forall id :: id in s.tenants && s.tenants[id].row.OnSlot? ==>
      s.tenants[id].busted || (s.pc.Rotating? && s.pc.stage.Committed? && s.pc.queue != [] && s.pc.queue[0] == id)
  }

  ghost predicate Inv(c: Config, s: Fleet) {
    RowsUsable(s) && TenantsOk(c, s) && Waits(c, s) && NoneLeftBehind(c, s)
  }

  /** Enough spacing settles a tenant before its next rotation. */
  lemma SpacingSettles(c: Config, s: Fleet)
    requires c.spacing >= Apart(c) && Inv(c, s) && Pace(c, s, Ensure)
    requires s.pc.Rotating? && !s.pc.stage.Committed? && s.pc.queue != [] && s.pc.queue[0] in s.tenants
    requires s.tenants[s.pc.queue[0]].row.OnSlot?
    ensures Settled(c, s.tenants[s.pc.queue[0]], s.now)
  {
    hide RowsUsable;
    hide Waits;
    assert TenantOk(c, s.tenants[s.pc.queue[0]], s.now);
  }

  /** The one sleep of the batch leaves every tenant settled, whenever it was moved. */
  lemma GraceSettles(c: Config, t: Tenant, now: nat)
    requires SafeConfig(c) && Waited(c, t, now)
    ensures Settled(c, t, now)
  {
  }

  lemma OneTenantKeeps(c: Config, s: Fleet, s': Fleet, id: nat, t': Tenant)
    requires TenantsOk(c, s) && id in s.tenants && s'.tenants == s.tenants[id := t'] && s'.now == s.now
    requires TenantOk(c, t', s.now)
    ensures TenantsOk(c, s')
  {
    hide TenantOk;
  }

  lemma RotateKeepsTenants(c: Config, s: Fleet, l: Label)
    requires c.hold > 0 && SafeConfig(c) && Inv(c, s) && Pace(c, s, l)
    requires s.pc.Rotating? && s.pc.queue != [] && s.pc.queue[0] in s.tenants && RotateOne(c, s, l).Some?
    ensures TenantsOk(c, RotateOne(c, s, l).value)
  {
    hide TenantOk;
    hide Settled;
    var s', id := RotateOne(c, s, l).value, s.pc.queue[0];
    var t := s.tenants[id];
    assert RowUsable(t) && TenantOk(c, t, s.now);
    if l == Ensure {
      if t.row.OnSlot? {
        SpacingSettles(c, s);
      }
      OtherSlotIsFree(c, t, s.now, StandbyOf(t), Role(true, Some(s.nextPassword)));
    } else if l == Commit {
      AdoptKeeps(c, t, s.now, s.pc.stage.cred);
    } else if l == BustOk {
      BustKeeps(c, t, s.now);
    }
    OneTenantKeeps(c, s, s', id, s'.tenants[id]);
  }

  lemma RotateKeepsWaits(c: Config, s: Fleet, l: Label)
    requires Waits(c, s)
    requires s.pc.Rotating? && s.pc.queue != [] && s.pc.queue[0] in s.tenants && RotateOne(c, s, l).Some?
    ensures Waits(c, RotateOne(c, s, l).value)
  {
  }

  lemma RotateLeavesNoneBehind(c: Config, s: Fleet, l: Label)
    requires NoneLeftBehind(c, s) && s.pc.Rotating? && s.pc.queue != [] && s.pc.queue[0] in s.tenants
    requires RotateOne(c, s, l).Some?
    ensures NoneLeftBehind(c, RotateOne(c, s, l).value)
  {
  }

  lemma RetireLeavesNoneBehind(c: Config, s: Fleet, l: Label)
    requires NoneLeftBehind(c, s) && s.pc.Retiring? && s.pc.retire != [] && RetireOne(s, l).Some?
    ensures NoneLeftBehind(c, RetireOne(s, l).value)
  {
  }

  lemma WorldLeavesNoneBehind(c: Config, s: Fleet, l: Label)
    requires NoneLeftBehind(c, s) && World(c, s, l).Some?
    ensures NoneLeftBehind(c, World(c, s, l).value)
  {
  }

  lemma RetireKeeps(c: Config, s: Fleet, l: Label)
    requires c.hold > 0 && SafeConfig(c) && Inv(c, s)
    requires s.pc.Retiring? && s.pc.retire != [] && RetireOne(s, l).Some?
    ensures TenantsOk(c, RetireOne(s, l).value) && Waits(c, RetireOne(s, l).value)
  {
    hide TenantOk;
    var s', m := RetireOne(s, l).value, s.pc.retire[0];
    assert OffSlot(s, m) && Waited(c, s.tenants[m.tenant], s.now);
    if l == Retire {
      var t := s.tenants[m.tenant];
      assert RowUsable(t);
      GraceSettles(c, t, s.now);
      OtherSlotIsFree(c, t, s.now, m.from, Role(false, None));
      OneTenantKeeps(c, s, s', m.tenant, s'.tenants[m.tenant]);
    }
    assert AllWaited(c, s', s'.pc.retire, s'.now);
  }

  lemma ScriptKeeps(c: Config, s: Fleet, l: Label)
    requires c.hold > 0 && SafeConfig(c) && Inv(c, s) && Pace(c, s, l) && Script(c, s, l).Some?
    ensures Inv(c, Script(c, s, l).value)
  {
    hide RotateOne;
    hide RetireOne;
    hide RowsUsable;
    hide TenantOk;
    hide Pace;
    ScriptKeepsRows(c, s, l);
    if s.pc.Rotating? && s.pc.queue != [] {
      RotateKeepsTenants(c, s, l);
      RotateKeepsWaits(c, s, l);
      RotateLeavesNoneBehind(c, s, l);
    } else if s.pc.Retiring? && s.pc.retire != [] {
      RetireKeeps(c, s, l);
      RetireLeavesNoneBehind(c, s, l);
    } else if s.pc.Rotating? && s.pc.queue == [] {
      assert InThePast(s) by {
        PastFromTenants(c, s);
      }
      BatchIsWaitedFor(c, s);
    }
  }

  lemma PastFromTenants(c: Config, s: Fleet)
    requires TenantsOk(c, s)
    ensures InThePast(s)
  {
    forall id | id in s.tenants
      ensures s.tenants[id].committedAt <= s.now && (s.tenants[id].busted ==> s.tenants[id].bustedAt <= s.now)
    {
      assert TenantOk(c, s.tenants[id], s.now);
    }
  }

  /** Whenever the batch goes to sleep, each tenant in it will have waited its own full grace. */
  lemma BatchIsWaitedFor(c: Config, s: Fleet)
    requires InThePast(s) && Waits(c, s) && s.pc.Rotating? && s.pc.queue == []
    ensures AllWaited(c, s, s.pc.rotated, s.now + c.grace)
  {
  }

  lemma WorldKeepsTenants(c: Config, s: Fleet, l: Label)
    requires Inv(c, s) && World(c, s, l).Some?
    ensures TenantsOk(c, World(c, s, l).value)
  {
    hide TenantOk;
    hide Fits;
    var s' := World(c, s, l).value;
    forall id | id in s'.tenants
      ensures TenantOk(c, s'.tenants[id], s'.now)
    {
      var t, t' := s.tenants[id], s'.tenants[id];
      assert RowUsable(t) && TenantOk(c, t, s.now);
      if l.Request? && l.t == id {
        ResolveKeepsTenant(c, t, l.p, l.r, s.now);
      } else {
        assert Fades(t, t');
        FadingKeeps(c, t, s.now, t', s'.now);
      }
    }
  }

  lemma WorldKeepsWaits(c: Config, s: Fleet, l: Label)
    requires Waits(c, s) && World(c, s, l).Some?
    ensures Waits(c, World(c, s, l).value)
  {
  }

  lemma DoKeeps(c: Config, s: Fleet, l: Label)
    requires c.hold > 0 && SafeConfig(c) && Inv(c, s) && Pace(c, s, l) && Do(c, s, l).Some?
    ensures Inv(c, Do(c, s, l).value)
  {
    hide Script;
    hide World;
    hide Pace;
    hide TenantsOk;
    hide RowsUsable;
    hide Waits;
    hide NoneLeftBehind;
    if IsScript(l) {
      ScriptKeeps(c, s, l);
    } else {
      WorldKeepsRows(c, s, l);
      WorldKeepsTenants(c, s, l);
      WorldKeepsWaits(c, s, l);
      WorldLeavesNoneBehind(c, s, l);
    }
  }

  lemma {:induction false} RunKeeps(c: Config, s: Fleet, labels: seq<Label>)
    requires c.hold > 0 && SafeConfig(c) && Inv(c, s) && Paced(c, s, labels) && Run(c, s, labels).Some?
    ensures Inv(c, Run(c, s, labels).value)
    decreases |labels|
  {
    hide Do;
    hide Inv;
    hide Pace;
    if labels != [] {
      RunKeeps(c, s, labels[..|labels| - 1]);
      DoKeeps(c, Run(c, s, labels[..|labels| - 1]).value, labels[|labels| - 1]);
    }
  }

  /** No rotation under way, rows usable, and no process has resolved anything yet. */
  ghost predicate Initial(s: Fleet) {
    && s.pc == Idle
    && forall id :: id in s.tenants ==>
         var t := s.tenants[id];
         RowUsable(t) && t.cache.local == map[] && t.holders == map[] && t.busted && t.bustedAt == t.committedAt <= s.now
  }

  ghost predicate Happens(c: Config, s: Fleet, labels: seq<Label>, s': Fleet) {
    Initial(s) && Paced(c, s, labels) && Run(c, s, labels) == Some(s')
  }

  /**
   Zero failed requests: in every interleaving of spaced rotations, some failing or cut short,
   with resolving and connecting processes, each connection uses a credential the server accepts.
   */
  lemma ZeroFailedRequests(c: Config, s: Fleet, labels: seq<Label>, s': Fleet, id: nat, r: nat)
    requires c.hold > 0 && SafeConfig(c) && Happens(c, s, labels, s')
    ensures !Refused(c, s', id, r)
  {
    assert Inv(c, s);
    RunKeeps(c, s, labels);
    if Do(c, s', Connect(id, r)).Some? {
      assert TenantOk(c, s'.tenants[id], s'.now);
      assert HolderOk(c, s'.tenants[id], s'.tenants[id].row.cred, s'.now, s'.tenants[id].holders[r]);
    }
  }

  /** No step moves a commit or a bust into the future, or cuts a grace period short. */
  lemma ScriptKeepsWaits(c: Config, s: Fleet, l: Label)
    requires Waits(c, s) && InThePast(s) && Script(c, s, l).Some?
    ensures Waits(c, Script(c, s, l).value) && InThePast(Script(c, s, l).value)
  {
    hide RotateOne;
    hide RetireOne;
    if s.pc.Rotating? && s.pc.queue != [] {
      RotateKeepsWaits(c, s, l);
      RotateKeepsPast(c, s, l);
    } else if s.pc.Rotating? {
      BatchIsWaitedFor(c, s);
    } else if s.pc.Retiring? && s.pc.retire != [] {
      RetireKeepsWaits(c, s, l);
    }
  }

  lemma RotateKeepsPast(c: Config, s: Fleet, l: Label)
    requires InThePast(s)
    requires s.pc.Rotating? && s.pc.queue != [] && s.pc.queue[0] in s.tenants && RotateOne(c, s, l).Some?
    ensures InThePast(RotateOne(c, s, l).value)
  {
    var s', id := RotateOne(c, s, l).value, s.pc.queue[0];
    var t, t' := s.tenants[id], s'.tenants[id];
    assert s'.tenants == s.tenants[id := t'] && s'.now == s.now;
    assert t'.committedAt <= s.now && (t'.busted ==> t'.bustedAt <= s.now);
    hide RotateOne;
  }

  lemma RetireKeepsWaits(c: Config, s: Fleet, l: Label)
    requires Waits(c, s) && InThePast(s) && s.pc.Retiring? && s.pc.retire != [] && RetireOne(s, l).Some?
    ensures Waits(c, RetireOne(s, l).value) && InThePast(RetireOne(s, l).value)
  {
  }

  lemma {:induction false} RunKeepsWaits(c: Config, s: Fleet, labels: seq<Label>)
    requires Initial(s) && Run(c, s, labels).Some?
    ensures Waits(c, Run(c, s, labels).value) && InThePast(Run(c, s, labels).value)
    decreases |labels|
  {
    if labels != [] {
      hide Script;
      hide World;
      hide Waits;
      var before, l := Run(c, s, labels[..|labels| - 1]).value, labels[|labels| - 1];
      RunKeepsWaits(c, s, labels[..|labels| - 1]);
      if IsScript(l) {
        ScriptKeepsWaits(c, before, l);
      } else {
        WorldKeepsWaits(c, before, l);
        WorldKeepsPast(c, before, l);
      }
    }
  }

  lemma WorldKeepsPast(c: Config, s: Fleet, l: Label)
    requires InThePast(s) && World(c, s, l).Some?
    ensures InThePast(World(c, s, l).value)
  {
  }

  /**
   One sleep for the whole batch still gives every tenant its full grace, counted from its own
   commit and its own bust, whatever came before.
   */
  lemma EachTenantGetsItsGrace(c: Config, s: Fleet, labels: seq<Label>, s': Fleet, i: nat)
    requires Initial(s) && Run(c, s, labels) == Some(s') && s'.pc.Retiring? && i < |s'.pc.retire|
    ensures s'.pc.retire[i].tenant in s'.tenants && Waited(c, s'.tenants[s'.pc.retire[i].tenant], s'.now)
  {
    RunKeepsWaits(c, s, labels);
  }

  // ---------------------------------------------------------------- where it ends

  ghost predicate Reaches(c: Config, s0: Fleet, s: Fleet) {
    exists labels: seq<Label> :: Happens(c, s0, labels, s)
  }

  lemma Extend(c: Config, s0: Fleet, s: Fleet, l: Label) returns (s': Fleet)
    requires Reaches(c, s0, s) && Do(c, s, l).Some? && Pace(c, s, l)
    ensures s' == Do(c, s, l).value && Reaches(c, s0, s')
  {
    hide Do;
    hide Pace;
    hide Initial;
    var labels: seq<Label> :| Happens(c, s0, labels, s);
    var more := labels + [l];
    assert more[..|more| - 1] == labels;
    s' := Do(c, s, l).value;
    assert Happens(c, s0, more, s');
  }

  lemma {:induction false} Wait(c: Config, s0: Fleet, s: Fleet, n: nat)
    requires Reaches(c, s0, s)
    ensures Reaches(c, s0, s.(now := s.now + n))
    decreases n
  {
    hide Script;
    hide Reaches;
    if n > 0 {
      var s1 := Extend(c, s0, s, Tick);
      Wait(c, s0, s1, n - 1);
      assert s1.(now := s1.now + (n - 1)) == s.(now := s.now + n);
    } else {
      assert s.(now := s.now + n) == s;
    }
  }

  /** A fleet of one tenant, on slot `a` for as long as anyone remembers. */
  function Solo(c: Config): Fleet {
    Fleet(map[0 := Tenant(Role(true, Some(1)), Role(false, None), OnSlot(Cred(A, 1)), Cache(false, map[]), map[],
                          -(c.spacing as int), -(c.spacing as int), true)], 0, Idle, 2)
  }

  lemma SoloReaches(c: Config)
    ensures Reaches(c, Solo(c), Solo(c))
  {
    assert Happens(c, Solo(c), [], Solo(c));
  }

  /** One batch up to its sleep, or, with `noRetire`, to its end. */
  lemma Batch(c: Config, start: Fleet, noRetire: bool) returns (s: Fleet)
    requires Reaches(c, Solo(c), start) && start.tenants.Keys == {0} && start.pc == Idle && start.now == 0
    requires start.nextPassword == 2
    requires var t := start.tenants[0];
      t == Solo(c).tenants[0].(cache := t.cache, holders := t.holders)
    ensures Reaches(c, Solo(c), s) && s.tenants.Keys == {0} && s.now == 0 && s.nextPassword == 3
    ensures s.pc == if noRetire then Idle else Sleeping(c.grace, [Moved(0, A)])
    ensures var t, t' := start.tenants[0], s.tenants[0];
      && t'.a == t.a && t'.holders == t.holders && LastRotation(t') == 0 && t'.row.OnSlot? && t'.row.cred.slot == B
      && t'.cache == if c.bustsSucceed then Bust(t.cache) else t.cache
  {
    hide Reaches;
    s := Extend(c, Solo(c), start, Start([0]));
    s := Extend(c, Solo(c), s, Ensure);
    s := Extend(c, Solo(c), s, Verify);
    s := Extend(c, Solo(c), s, Commit);
    s := Extend(c, Solo(c), s, if c.bustsSucceed then BustOk else BustFailed);
    s := Extend(c, Solo(c), s, EndLoop(noRetire));
  }

  /** The grace is over and the slot is retired; request 2 still holds its credential. */
  lemma RetiredTooSoon(c: Config, start: Fleet) returns (s: Fleet)
    requires Reaches(c, Solo(c), start) && start.tenants.Keys == {0}
    requires start.pc == Sleeping(c.grace, [Moved(0, A)]) && start.now <= c.grace
    requires var h := start.tenants[0].holders;
      2 in h && h[2].cred.slot == A && c.grace < h[2].since + c.hold
    ensures Reaches(c, Solo(c), s) && Refused(c, s, 0, 2)
  {
    hide Reaches;
    hide RotateOne;
    hide Resolve;
    Wait(c, Solo(c), start, c.grace - start.now);
    s := start.(now := start.now + (c.grace - start.now));
    s := Extend(c, Solo(c), s, Wake);
    s := Extend(c, Solo(c), s, Retire);
  }

  /** One process and a bust that works: a grace shorter than one request is still too short. */
  lemma SlowRequestIsRefused(c: Config, p: nat) returns (s: Fleet)
    requires p in c.procs && c.grace < c.hold
    ensures Reaches(c, Solo(c), s) && Refused(c, s, 0, 2)
  {
    hide Reaches;
    SoloReaches(c);
    s := Extend(c, Solo(c), Solo(c), Request(0, p, 2));
    s := Batch(c, s, false);
    s := RetiredTooSoon(c, s);
  }

  /** The old credential is cached, and about to be served. */
  ghost predicate StillCached(c: Config, s: Fleet, p: nat) {
    && s.tenants.Keys == {0} && s.now == 0 && p in c.procs
    && var t := s.tenants[0];
       && t.row.OnSlot? && t.row.cred.slot == B && 2 !in t.holders && t.cache.shared && LastRotation(t) == 0
       && p in t.cache.local && t.cache.local[p].since == 0 && t.cache.local[p].value == Cred(A, 1)
  }

  /** One batch that leaves it cached: a second process refills the entry, or the bust does not happen. */
  lemma BatchLeavesItCached(c: Config, p: nat, noRetire: bool) returns (s: Fleet, p1: nat)
    requires p in c.procs && !(Sole(c) && c.bustsSucceed)
    ensures Reaches(c, Solo(c), s) && StillCached(c, s, p1) && s.nextPassword == 3
    ensures s.pc == if noRetire then Idle else Sleeping(c.grace, [Moved(0, A)])
  {
    hide Reaches;
    hide Script;
    SoloReaches(c);
    p1 := p;
    if c.bustsSucceed {
      var q;
      p1, q := TwoOf(c.procs);
      s := Extend(c, Solo(c), Solo(c), Request(0, p1, 0));
      s := Batch(c, s, noRetire);
      s := Extend(c, Solo(c), s, Request(0, q, 1));
    } else {
      s := Extend(c, Solo(c), Solo(c), Request(0, p1, 0));
      s := Batch(c, s, noRetire);
    }
  }

  /** A script that dies before its bust leaves it cached, too. */
  lemma DyingLeavesItCached(c: Config, p: nat) returns (s: Fleet)
    requires p in c.procs && c.mayDie
    ensures Reaches(c, Solo(c), s) && StillCached(c, s, p) && s.nextPassword == 3 && s.pc == Idle
  {
    hide Reaches;
    SoloReaches(c);
    s := Extend(c, Solo(c), Solo(c), Request(0, p, 0));
    s := Extend(c, Solo(c), s, Start([0]));
    s := Extend(c, Solo(c), s, Ensure);
    s := Extend(c, Solo(c), s, Verify);
    s := Extend(c, Solo(c), s, Commit);
    s := Extend(c, Solo(c), s, Crash);
  }

  /** Request 2 gets it as late as the TTL allows, within `wait`. */
  lemma ServedLate(c: Config, p: nat, start: Fleet, wait: nat) returns (s: Fleet)
    requires c.hold > 0 && Reaches(c, Solo(c), start) && StillCached(c, start, p) && wait < c.ttl + c.hold
    ensures Reaches(c, Solo(c), s) && s.now <= wait && s.tenants.Keys == {0}
    ensures s.pc == start.pc && s.nextPassword == start.nextPassword
    ensures var t, t' := start.tenants[0], s.tenants[0];
      && t'.a == t.a && t'.row == t.row && LastRotation(t') == 0
      && 2 in t'.holders && t'.holders[2].cred == Cred(A, 1) && wait < t'.holders[2].since + c.hold
  {
    hide Reaches;
    hide Script;
    var m := if wait <= c.ttl then wait else c.ttl;
    Wait(c, Solo(c), start, m);
    s := start.(now := start.now + m);
    s := Extend(c, Solo(c), s, Request(0, p, 2));
  }

  lemma ShortGraceRefuses(c: Config, p: nat) returns (s: Fleet)
    requires c.hold > 0 && p in c.procs && c.grace < Straggling(c)
    ensures Reaches(c, Solo(c), s) && Refused(c, s, 0, 2)
  {
    hide Reaches;
    hide Refused;
    hide Do;
    if Sole(c) && c.bustsSucceed {
      s := SlowRequestIsRefused(c, p);
    } else {
      var p1;
      s, p1 := BatchLeavesItCached(c, p, false);
      s := ServedLate(c, p1, s, c.grace);
      s := RetiredTooSoon(c, s);
    }
  }

  /** The spacing is over and the slot is issued again; request 2 still holds its old password. */
  lemma ReissuedTooSoon(c: Config, start: Fleet) returns (s: Fleet)
    requires Reaches(c, Solo(c), start) && start.tenants.Keys == {0} && start.pc == Idle && start.now <= c.spacing
    requires start.nextPassword == 3
    requires var t := start.tenants[0];
      && t.row.OnSlot? && t.row.cred.slot == B && LastRotation(t) == 0
      && 2 in t.holders && t.holders[2].cred == Cred(A, 1) && c.spacing < t.holders[2].since + c.hold
    ensures Reaches(c, Solo(c), s) && Refused(c, s, 0, 2)
  {
    hide Reaches;
    hide RetireOne;
    hide Resolve;
    Wait(c, Solo(c), start, c.spacing - start.now);
    s := start.(now := start.now + (c.spacing - start.now));
    s := Extend(c, Solo(c), s, Start([0]));
    s := Extend(c, Solo(c), s, Ensure);
  }

  /** Any spacing shorter than that re-issues a slot that a request still uses, whatever the grace is. */
  lemma ShortSpacingRefuses(c: Config, p: nat) returns (s: Fleet)
    requires c.hold > 0 && p in c.procs && c.spacing < Apart(c)
    ensures Reaches(c, Solo(c), s) && Refused(c, s, 0, 2)
  {
    hide Reaches;
    hide Refused;
    if Sole(c) && c.bustsSucceed && !c.mayDie {
      SoloReaches(c);
      s := Extend(c, Solo(c), Solo(c), Request(0, p, 2));
      s := Batch(c, s, true);
      s := ReissuedTooSoon(c, s);
      return;
    }
    var p1 := p;
    if Sole(c) && c.bustsSucceed {
      s := DyingLeavesItCached(c, p);
    } else {
      s, p1 := BatchLeavesItCached(c, p, true);
    }
    s := ServedLate(c, p1, s, c.spacing);
    s := ReissuedTooSoon(c, s);
  }

  /**
   No request is ever refused exactly when both waits cover the life of an old credential. The
   grace: a request's, plus a cache TTL if the bust may fail or a second process may refill the
   entry. The spacing: the same, and also the TTL if the script may die before its bust.
   */
  lemma ZeroFailedIff(c: Config)
    requires c.hold > 0 && c.procs != {}
    ensures SafeConfig(c) <==> forall s, s', id, r :: Reaches(c, s, s') ==> !Refused(c, s', id, r)
  {
    if SafeConfig(c) {
      forall s, s', id, r | Reaches(c, s, s')
        ensures !Refused(c, s', id, r)
      {
        var labels: seq<Label> :| Happens(c, s, labels, s');
        ZeroFailedRequests(c, s, labels, s', id, r);
      }
    } else {
      var p :| p in c.procs;
      if c.grace < Straggling(c) {
        var s := ShortGraceRefuses(c, p);
      } else {
        var s := ShortSpacingRefuses(c, p);
      }
    }
  }
}
