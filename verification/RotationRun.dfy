/**
 `main` and `rotateOne` of scripts/tenant-rotate-db-creds.ts as the loops they are. Between any
 two statements other processes do whatever `world` says; the run is proved to be a history of
 the machine in `Rotation`, and what it leaves behind is stated outright.
 */
module RotationRun {
  import opened Basics
  import opened Rotation

  /** Where a rotation throws. A cache bust does not: its failure is only a warning. */
  datatype Fault = NoFault | AtEnsure | AtVerify | AtCommit

  /** What fails, and what others do before statement `n` of the rotation or retirement of a tenant. */
  datatype Plan = Plan(
    fault: nat -> Fault, bustFails: nat -> bool, retireFails: nat -> bool, world: (nat, nat) -> seq<Label>)

  /** The roles and the row; caches and requests come and go. */
  predicate Same(a: Tenant, b: Tenant) {
    b.a == a.a && b.b == a.b && b.row == a.row
  }

  /** Nothing of what the script reads or writes has changed. */
  ghost predicate Undisturbed(a: Fleet, b: Fleet) {
    && b.pc == a.pc && b.nextPassword == a.nextPassword && b.now >= a.now && b.tenants.Keys == a.tenants.Keys
    && forall id :: id in a.tenants ==> Same(a.tenants[id], b.tenants[id])
  }

  lemma WorldDoesNotDisturb(c: Config, s: Fleet, l: Label)
    requires !IsScript(l) && l != Crash && Do(c, s, l).Some?
    ensures Undisturbed(s, Do(c, s, l).value)
  {
  }

  /** Whether a tenant's rotation goes through. */
  predicate Rotates(plan: Plan, t: Tenant, id: nat) {
    !t.row.Foreign? && plan.fault(id) == NoFault
  }

  /** A rotated tenant is on the other slot and can log in; the slot it left works until retired. */
  ghost predicate Rotated(t: Tenant, t': Tenant, retired: bool) {
    && t'.row.OnSlot? && t'.row.cred.slot == StandbyOf(t) && Accepts(t', t'.row.cred)
    && (t.row.OnSlot? ==>
          RoleOf(t', t.row.cred.slot) == if retired then Role(false, None) else RoleOf(t, t.row.cred.slot))
  }

  /** One whose rotation failed is where it was. */
  ghost predicate Left(t: Tenant, t': Tenant) {
    t'.row == t.row && (t.row.OnSlot? ==> RoleOf(t', t.row.cred.slot) == RoleOf(t, t.row.cred.slot))
  }

  /** The slots the batch moves off. */
  function Moves(plan: Plan, tenants: map<nat, Tenant>, targets: seq<nat>): seq<Moved> {
    if targets == [] then []
    else
      var before, id := Moves(plan, tenants, targets[..|targets| - 1]), targets[|targets| - 1];
      if id in tenants && Rotates(plan, tenants[id], id) && tenants[id].row.OnSlot?
      then before + [Moved(id, tenants[id].row.cred.slot)] else before
  }

  function Failures(plan: Plan, tenants: map<nat, Tenant>, targets: seq<nat>): nat {
    if targets == [] then 0
    else
      var before, id := Failures(plan, tenants, targets[..|targets| - 1]), targets[|targets| - 1];
      if id in tenants && Rotates(plan, tenants[id], id) then before else before + 1
  }

  function RetireFailures(plan: Plan, ms: seq<Moved>): nat {
    if ms == [] then 0
    else RetireFailures(plan, ms[..|ms| - 1]) + if plan.retireFails(ms[|ms| - 1].tenant) then 1 else 0
  }

  /** Between two statements of the rotation of `id`, which began in `before`. */
  ghost predicate Underway(before: Fleet, f: Fleet, id: nat) {
    && before.pc.Rotating? && before.pc.queue != [] && before.pc.queue[0] == id && id in before.tenants
    && f.pc.Rotating? && f.pc == before.pc.(stage := f.pc.stage) && Elsewhere(before, f, id)
    && Left(before.tenants[id], f.tenants[id])
    && (f.pc.stage.Ensured? || f.pc.stage.Verified? ==>
          f.pc.stage.cred.slot == StandbyOf(before.tenants[id]) && Accepts(f.tenants[id], f.pc.stage.cred))
  }

  ghost predicate Elsewhere(before: Fleet, f: Fleet, id: nat) {
    && f.tenants.Keys == before.tenants.Keys
    && forall x :: x in before.tenants && x != id ==> Same(before.tenants[x], f.tenants[x])
  }

  /** The rotation of `id` threw, and the loop goes on. */
  ghost predicate GivenUp(before: Fleet, f: Fleet, id: nat) {
    && before.pc.Rotating? && before.pc.queue != [] && id in before.tenants
    && f.pc == before.pc.(queue := before.pc.queue[1..], stage := Untouched)
    && Elsewhere(before, f, id) && Left(before.tenants[id], f.tenants[id])
  }

  ghost predicate Done(before: Fleet, f: Fleet, id: nat) {
    && before.pc.Rotating? && before.pc.queue != [] && id in before.tenants
    && Elsewhere(before, f, id) && Rotated(before.tenants[id], f.tenants[id], false)
    && f.pc.Rotating? && f.pc.rotated ==
         if before.tenants[id].row.OnSlot?
         then before.pc.rotated + [Moved(id, before.tenants[id].row.cred.slot)] else before.pc.rotated
  }

  lemma StillUnderway(before: Fleet, f: Fleet, f': Fleet, id: nat)
    requires Underway(before, f, id) && Undisturbed(f, f')
    ensures Underway(before, f', id)
  {
  }

  lemma GiveUp(c: Config, before: Fleet, f: Fleet, id: nat)
    requires Underway(before, f, id) && !f.pc.stage.Committed?
    ensures Do(c, f, Skip).Some? && GivenUp(before, Do(c, f, Skip).value, id)
  {
  }

  lemma EnsureGoesOn(c: Config, before: Fleet, f: Fleet, id: nat)
    requires Underway(before, f, id) && f.pc.stage.Untouched? && !f.tenants[id].row.Foreign?
    ensures Do(c, f, Ensure).Some?
    ensures var f' := Do(c, f, Ensure).value; Underway(before, f', id) && f'.pc.stage.Ensured?
  {
  }

  lemma VerifyGoesOn(c: Config, before: Fleet, f: Fleet, id: nat)
    requires Underway(before, f, id) && f.pc.stage.Ensured?
    ensures Do(c, f, Verify).Some?
    ensures var f' := Do(c, f, Verify).value; Underway(before, f', id) && f'.pc.stage.Verified?
  {
  }

  lemma CommitIsDone(c: Config, before: Fleet, f: Fleet, id: nat)
    requires Underway(before, f, id) && f.pc.stage.Verified?
    ensures Do(c, f, Commit).Some?
    ensures var f' := Do(c, f, Commit).value;
      Done(before, f', id) && f'.pc.stage.Committed? && f'.pc.queue == before.pc.queue
  {
  }

  lemma StillDone(before: Fleet, f: Fleet, f': Fleet, id: nat)
    requires Done(before, f, id) && Undisturbed(f, f')
    ensures Done(before, f', id)
  {
  }

  lemma BustGoesOn(c: Config, before: Fleet, f: Fleet, id: nat, fails: bool)
    requires Done(before, f, id) && f.pc.stage.Committed? && f.pc.queue == before.pc.queue && f.pc.queue[0] == id
    requires c.bustsSucceed ==> !fails
    ensures var r := Do(c, f, if fails then BustFailed else BustOk);
      r.Some? && Done(before, r.value, id) && r.value.pc.queue == before.pc.queue[1..] && r.value.pc.stage == Untouched
  {
  }

  // ---------------------------------------------------------------- the batch

  function Ids(ms: seq<Moved>): set<nat> {
    set k | 0 <= k < |ms| :: ms[k].tenant
  }

  /** Where one target is while the batch goes on: not reached, or done; retired, or not. */
  ghost predicate TargetOk(plan: Plan, t0: Tenant, t: Tenant, id: nat, reached: bool, retired: bool) {
    if !reached then Same(t0, t)
    else if Rotates(plan, t0, id) then Rotated(t0, t, retired && !plan.retireFails(id))
    else Left(t0, t)
  }

  ghost predicate Batched(plan: Plan, f0: Fleet, f: Fleet, targets: seq<nat>, i: nat) {
    && i <= |targets| && f.tenants.Keys == f0.tenants.Keys
    && (forall k :: 0 <= k < |targets| ==>
          targets[k] in f.tenants && TargetOk(plan, f0.tenants[targets[k]], f.tenants[targets[k]], targets[k], k < i, false))
    && f.pc == Rotating(targets[i..], Untouched, Moves(plan, f0.tenants, targets[..i]))
  }

  lemma {:induction false} MovesAre(plan: Plan, tenants: map<nat, Tenant>, targets: seq<nat>)
    requires forall k :: 0 <= k < |targets| ==> targets[k] in tenants
    ensures forall id ::
        id in Ids(Moves(plan, tenants, targets)) <==> id in targets && Rotates(plan, tenants[id], id) && tenants[id].row.OnSlot?
    ensures forall m :: m in Moves(plan, tenants, targets) ==>
      m.tenant in targets && tenants[m.tenant].row.OnSlot? && m.from == tenants[m.tenant].row.cred.slot
  {
    if targets != [] {
      var init, last := targets[..|targets| - 1], targets[|targets| - 1];
      MovesAre(plan, tenants, init);
      assert targets == init + [last];
      var before := Moves(plan, tenants, init);
      var m := Moved(last, if tenants[last].row.OnSlot? then tenants[last].row.cred.slot else A);
      assert Ids(before + [m]) == Ids(before) + {last} by {
        forall k | 0 <= k < |before|
          ensures (before + [m])[k] == before[k]
        {
        }
        assert (before + [m])[|before|] == m;
      }
    }
  }

  lemma NoTargetYet(plan: Plan, f0: Fleet, targets: seq<nat>)
    requires forall k :: 0 <= k < |targets| ==> targets[k] in f0.tenants
    requires f0.pc == Rotating(targets, Untouched, [])
    ensures Batched(plan, f0, f0, targets, 0)
  {
    assert targets[..0] == [] && targets[0..] == targets;
  }

  lemma OneMoreTarget(plan: Plan, f0: Fleet, f: Fleet, f': Fleet, targets: seq<nat>, i: nat)
    requires Batched(plan, f0, f, targets, i) && i < |targets| && DistinctTargets(targets)
    requires var id, ok := targets[i], Rotates(plan, f.tenants[targets[i]], targets[i]);
      if ok then Done(f, f', id) else GivenUp(f, f', id)
    requires f'.pc.Rotating? && f'.pc.queue == targets[i + 1..] && f'.pc.stage == Untouched
    ensures Batched(plan, f0, f', targets, i + 1)
    ensures Rotates(plan, f.tenants[targets[i]], targets[i]) == Rotates(plan, f0.tenants[targets[i]], targets[i])
  {
    var id := targets[i];
    assert Same(f0.tenants[id], f.tenants[id]);
    assert targets[..i + 1][..i] == targets[..i];
    forall k | 0 <= k < |targets|
      ensures targets[k] in f'.tenants
      ensures TargetOk(plan, f0.tenants[targets[k]], f'.tenants[targets[k]], targets[k], k < i + 1, false)
    {
      assert k != i ==> targets[k] != id;
      assert TargetOk(plan, f0.tenants[targets[k]], f.tenants[targets[k]], targets[k], k < i, false);
    }
  }

  /** The batch is moved; the first `j` slots have had their turn at being retired. */
  ghost predicate SlotsRetiring(plan: Plan, f0: Fleet, f: Fleet, targets: seq<nat>, ms: seq<Moved>, j: nat) {
    && j <= |ms| && f.tenants.Keys == f0.tenants.Keys && ms == Moves(plan, f0.tenants, targets)
    && forall k :: 0 <= k < |targets| ==>
         targets[k] in f.tenants
         && TargetOk(plan, f0.tenants[targets[k]], f.tenants[targets[k]], targets[k], true, targets[k] in Ids(ms[..j]))
  }

  lemma BatchedIsMoved(plan: Plan, f0: Fleet, f: Fleet, targets: seq<nat>)
    requires Batched(plan, f0, f, targets, |targets|)
    ensures SlotsRetiring(plan, f0, f, targets, Moves(plan, f0.tenants, targets), 0)
    ensures f.pc == Rotating([], Untouched, Moves(plan, f0.tenants, targets))
  {
    assert targets[..|targets|] == targets;
    var ms := Moves(plan, f0.tenants, targets);
    assert Ids(ms[..0]) == {};
    forall k | 0 <= k < |targets|
      ensures targets[k] in f.tenants
      ensures TargetOk(plan, f0.tenants[targets[k]], f.tenants[targets[k]], targets[k], true, false)
    {
      assert TargetOk(plan, f0.tenants[targets[k]], f.tenants[targets[k]], targets[k], k < |targets|, false);
    }
  }

  lemma StillRetiring(plan: Plan, f0: Fleet, f: Fleet, f': Fleet, targets: seq<nat>, ms: seq<Moved>, j: nat)
    requires SlotsRetiring(plan, f0, f, targets, ms, j)
    requires f'.tenants.Keys == f.tenants.Keys && forall id :: id in f.tenants ==> Same(f.tenants[id], f'.tenants[id])
    ensures SlotsRetiring(plan, f0, f', targets, ms, j)
  {
    forall k | 0 <= k < |targets|
      ensures targets[k] in f'.tenants
      ensures TargetOk(plan, f0.tenants[targets[k]], f'.tenants[targets[k]], targets[k], true, targets[k] in Ids(ms[..j]))
    {
      assert Same(f.tenants[targets[k]], f'.tenants[targets[k]]);
    }
  }

  lemma IdsSnoc(ms: seq<Moved>, j: nat)
    requires j < |ms|
    ensures Ids(ms[..j + 1]) == Ids(ms[..j]) + {ms[j].tenant}
  {
    assert ms[..j + 1] == ms[..j] + [ms[j]];
    forall k | 0 <= k < j
      ensures ms[..j + 1][k] == ms[..j][k]
    {
    }
    assert ms[..j + 1][j] == ms[j];
  }

  lemma OneMoreRetired(c: Config, plan: Plan, f0: Fleet, f: Fleet, targets: seq<nat>, ms: seq<Moved>, j: nat)
    requires SlotsRetiring(plan, f0, f, targets, ms, j) && j < |ms| && f.pc == Retiring(ms[j..])
    requires forall k :: 0 <= k < |targets| ==> targets[k] in f0.tenants
    ensures var r := Do(c, f, if plan.retireFails(ms[j].tenant) then RetireFails else Retire);
      r.Some? && r.value.pc == Retiring(ms[j + 1..]) && SlotsRetiring(plan, f0, r.value, targets, ms, j + 1)
  {
    MovesAre(plan, f0.tenants, targets);
    IdsSnoc(ms, j);
    var m := ms[j];
    assert m in ms && m.tenant in targets;
    assert ms[j..][1..] == ms[j + 1..];
    var f' := Do(c, f, if plan.retireFails(m.tenant) then RetireFails else Retire).value;
    assert Rotates(plan, f0.tenants[m.tenant], m.tenant) by {
      assert m.tenant in Ids(ms);
    }
    forall k | 0 <= k < |targets|
      ensures targets[k] in f'.tenants
      ensures TargetOk(plan, f0.tenants[targets[k]], f'.tenants[targets[k]], targets[k], true, targets[k] in Ids(ms[..j + 1]))
    {
      assert TargetOk(plan, f0.tenants[targets[k]], f.tenants[targets[k]], targets[k], true, targets[k] in Ids(ms[..j]));
    }
  }

  /** What a whole run leaves of one target. */
  ghost predicate Outcome(plan: Plan, t0: Tenant, t: Tenant, id: nat, noRetire: bool) {
    if Rotates(plan, t0, id) then Rotated(t0, t, !noRetire && !plan.retireFails(id)) else Left(t0, t)
  }

  lemma Outcomes(plan: Plan, f0: Fleet, f: Fleet, targets: seq<nat>, ms: seq<Moved>, noRetire: bool)
    requires SlotsRetiring(plan, f0, f, targets, ms, if noRetire then 0 else |ms|)
    ensures forall k :: 0 <= k < |targets| ==>
      targets[k] in f.tenants && Outcome(plan, f0.tenants[targets[k]], f.tenants[targets[k]], targets[k], noRetire)
  {
    MovesAre(plan, f0.tenants, targets);
    var j := if noRetire then 0 else |ms|;
    assert noRetire ==> Ids(ms[..j]) == {};
    assert !noRetire ==> ms[..j] == ms;
    forall k | 0 <= k < |targets|
      ensures targets[k] in f.tenants && Outcome(plan, f0.tenants[targets[k]], f.tenants[targets[k]], targets[k], noRetire)
    {
      assert TargetOk(plan, f0.tenants[targets[k]], f.tenants[targets[k]], targets[k], true, targets[k] in Ids(ms[..j]));
    }
  }

  /** The same in terms of the two roles: which one a rotation writes, and what becomes of the other. */
  lemma OutcomeIs(plan: Plan, t0: Tenant, t: Tenant, id: nat, noRetire: bool)
    requires Outcome(plan, t0, t, id, noRetire)
    ensures t0.row == Foreign || plan.fault(id) != NoFault ==>
      && t.row == t0.row
      && (forall pw :: t0.row == OnSlot(Cred(A, pw)) ==> t.a == t0.a)
      && (forall pw :: t0.row == OnSlot(Cred(B, pw)) ==> t.b == t0.b)
    ensures t0.row == NoRow && plan.fault(id) == NoFault ==>
      exists pw :: t.row == OnSlot(Cred(A, pw)) && t.a == Role(true, Some(pw))
    ensures forall was :: t0.row == OnSlot(Cred(A, was)) && plan.fault(id) == NoFault ==>
      && (exists pw :: t.row == OnSlot(Cred(B, pw)) && t.b == Role(true, Some(pw)))
      && t.a == if noRetire || plan.retireFails(id) then t0.a else Role(false, None)
    ensures forall was :: t0.row == OnSlot(Cred(B, was)) && plan.fault(id) == NoFault ==>
      && (exists pw :: t.row == OnSlot(Cred(A, pw)) && t.a == Role(true, Some(pw)))
      && t.b == if noRetire || plan.retireFails(id) then t0.b else Role(false, None)
  {
    if Rotates(plan, t0, id) {
      assert t.row == OnSlot(Cred(t.row.cred.slot, t.row.cred.password));
    }
  }

  function Select(ids: seq<nat>, p: nat -> bool): set<nat> {
    set id | id in ids && p(id)
  }

  /** The targets that are not rotated. */
  function Failing(plan: Plan, tenants: map<nat, Tenant>, targets: seq<nat>): set<nat> {
    Select(targets, id => id in tenants && (tenants[id].row == Foreign || plan.fault(id) != NoFault))
  }

  /** The targets that are, and whose old slot is not retired. */
  function Stranded(plan: Plan, tenants: map<nat, Tenant>, targets: seq<nat>): set<nat> {
    Select(targets, id => id in tenants && tenants[id].row.OnSlot? && plan.fault(id) == NoFault && plan.retireFails(id))
  }

  lemma SelectSnoc(ids: seq<nat>, last: nat, p: nat -> bool)
    requires last !in ids
    ensures |Select(ids + [last], p)| == |Select(ids, p)| + if p(last) then 1 else 0
  {
    assert Select(ids + [last], p) == Select(ids, p) + if p(last) then {last} else {};
  }

  /** The counts are of tenants: those not rotated, and those moved whose old slot was not retired. */
  lemma {:induction false} FailuresAre(plan: Plan, tenants: map<nat, Tenant>, targets: seq<nat>)
    requires DistinctTargets(targets) && forall k :: 0 <= k < |targets| ==> targets[k] in tenants
    ensures Failures(plan, tenants, targets) == |Failing(plan, tenants, targets)|
    ensures RetireFailures(plan, Moves(plan, tenants, targets)) == |Stranded(plan, tenants, targets)|
  {
    hide Failing;
    hide Stranded;
    if targets == [] {
      NoneFailing(plan, tenants);
    } else {
      var init, last := targets[..|targets| - 1], targets[|targets| - 1];
      assert targets == init + [last] && last !in init;
      FailuresAre(plan, tenants, init);
      OneMoreFailing(plan, tenants, init, last);
      if tenants[last].row.OnSlot? {
        RetireFailuresSnoc(plan, Moves(plan, tenants, init), Moved(last, tenants[last].row.cred.slot));
      }
    }
  }

  lemma NoneFailing(plan: Plan, tenants: map<nat, Tenant>)
    ensures Failing(plan, tenants, []) == {} && Stranded(plan, tenants, []) == {}
  {
  }

  lemma OneMoreFailing(plan: Plan, tenants: map<nat, Tenant>, init: seq<nat>, last: nat)
    requires last !in init && last in tenants
    ensures |Failing(plan, tenants, init + [last])| == |Failing(plan, tenants, init)|
      + if Rotates(plan, tenants[last], last) then 0 else 1
    ensures |Stranded(plan, tenants, init + [last])| == |Stranded(plan, tenants, init)|
      + if Rotates(plan, tenants[last], last) && tenants[last].row.OnSlot? && plan.retireFails(last) then 1 else 0
  {
    hide Select;
    SelectSnoc(init, last, id => id in tenants && (tenants[id].row == Foreign || plan.fault(id) != NoFault));
    SelectSnoc(init, last, id => id in tenants && tenants[id].row.OnSlot? && plan.fault(id) == NoFault && plan.retireFails(id));
  }

  lemma RetireFailuresSnoc(plan: Plan, ms: seq<Moved>, m: Moved)
    ensures RetireFailures(plan, ms + [m]) == RetireFailures(plan, ms) + if plan.retireFails(m.tenant) then 1 else 0
  {
    assert (ms + [m])[..|ms|] == ms;
  }

  /** The statements of `main` between its loops. */
  lemma Between(c: Config, f: Fleet, targets: seq<nat>, noRetire: bool)
    ensures f.pc == Idle && DistinctTargets(targets) && (forall k :: 0 <= k < |targets| ==> targets[k] in f.tenants)
      ==> Do(c, f, Start(targets)) == Some(f.(pc := Rotating(targets, Untouched, [])))
    ensures f.pc.Rotating? && f.pc.queue == []
      ==> Do(c, f, EndLoop(noRetire)) == Some(f.(pc :=
            if noRetire || f.pc.rotated == [] then Idle else Sleeping(f.now + c.grace, f.pc.rotated)))
    ensures f.pc.Sleeping? && f.now >= f.pc.until ==> Do(c, f, Wake) == Some(f.(pc := Retiring(f.pc.retire)))
    ensures f.pc == Retiring([]) ==> Do(c, f, End) == Some(f.(pc := Idle))
  {
  }

  lemma Undisturbing(f: Fleet, f': Fleet)
    requires Undisturbed(f, f')
    ensures f'.pc == f.pc && f'.tenants.Keys == f.tenants.Keys
    ensures forall id :: id in f.tenants ==> Same(f.tenants[id], f'.tenants[id])
  {
  }

  class Operator {
    var fleet: Fleet
    ghost var start: Fleet
    ghost var history: seq<Label>

    ghost predicate Valid(c: Config)
      reads this
    {
      Run(c, start, history) == Some(fleet)
    }

    constructor (c: Config, s: Fleet)
      ensures Valid(c) && fleet == start == s && history == []
    {
      fleet, start, history := s, s, [];
    }

    method Take(c: Config, l: Label)
      requires Valid(c) && Do(c, fleet, l).Some?
      modifies this
      ensures Valid(c) && start == old(start) && fleet == Do(c, old(fleet), l).value
    {
      hide Do;
      fleet := Do(c, fleet, l).value;
      history := history + [l];
      assert history[..|history| - 1] == old(history);
    }

    method Others(c: Config, world: seq<Label>)
      requires Valid(c)
      modifies this
      ensures Valid(c) && start == old(start) && Undisturbed(old(fleet), fleet)
    {
      hide Do;
      for i := 0 to |world|
        invariant Valid(c) && start == old(start) && Undisturbed(old(fleet), fleet)
      {
        if !IsScript(world[i]) && world[i] != Crash && Do(c, fleet, world[i]).Some? {
          WorldDoesNotDisturb(c, fleet, world[i]);
          Take(c, world[i]);
        }
      }
    }

    method RotateOne(c: Config, plan: Plan, id: nat) returns (ok: bool)
      requires Valid(c) && fleet.pc.Rotating? && fleet.pc.stage == Untouched
      requires fleet.pc.queue != [] && fleet.pc.queue[0] == id && id in fleet.tenants
      requires c.bustsSucceed ==> !plan.bustFails(id)
      modifies this
      ensures Valid(c) && start == old(start)
      ensures ok == Rotates(plan, old(fleet).tenants[id], id)
      ensures if ok then Done(old(fleet), fleet, id) else GivenUp(old(fleet), fleet, id)
      ensures fleet.pc.Rotating? && fleet.pc.queue == old(fleet).pc.queue[1..] && fleet.pc.stage == Untouched
    {
      ghost var before, s := fleet, fleet;
      hide Do;
      hide Run;
      Others(c, plan.world(id, 0));
      StillUnderway(before, s, fleet, id);
      if fleet.tenants[id].row.Foreign? || plan.fault(id) == AtEnsure {
        GiveUp(c, before, fleet, id);
        Take(c, Skip);
        return false;
      }
      EnsureGoesOn(c, before, fleet, id);
      Take(c, Ensure);
      s := fleet;
      Others(c, plan.world(id, 1));
      StillUnderway(before, s, fleet, id);
      if plan.fault(id) == AtVerify {
        GiveUp(c, before, fleet, id);
        Take(c, Skip);
        return false;
      }
      VerifyGoesOn(c, before, fleet, id);
      Take(c, Verify);
      s := fleet;
      Others(c, plan.world(id, 2));
      StillUnderway(before, s, fleet, id);
      if plan.fault(id) == AtCommit {
        GiveUp(c, before, fleet, id);
        Take(c, Skip);
        return false;
      }
      CommitIsDone(c, before, fleet, id);
      Take(c, Commit);
      s := fleet;
      Others(c, plan.world(id, 3));
      StillDone(before, s, fleet, id);
      BustGoesOn(c, before, fleet, id, plan.bustFails(id));
      Take(c, if plan.bustFails(id) then BustFailed else BustOk);
      ok := true;
    }

    /** The one sleep. */
    method Sleep(c: Config, until: nat, world: seq<Label>)
      requires Valid(c)
      modifies this
      ensures Valid(c) && start == old(start) && Undisturbed(old(fleet), fleet) && fleet.now >= until
    {
      Others(c, world);
      while fleet.now < until
        invariant Valid(c) && start == old(start) && Undisturbed(old(fleet), fleet)
        decreases until - fleet.now
      {
        Take(c, Tick);
      }
    }

    /** The slots of the batch, one after the other; one that fails is only counted. */
    method RetireAll(c: Config, plan: Plan, ghost f0: Fleet, ghost targets: seq<nat>, ms: seq<Moved>) returns (failed: nat)
      requires Valid(c) && fleet.pc == Retiring(ms) && SlotsRetiring(plan, f0, fleet, targets, ms, 0)
      requires forall k :: 0 <= k < |targets| ==> targets[k] in f0.tenants
      modifies this
      ensures Valid(c) && start == old(start) && fleet.pc == Retiring([])
      ensures SlotsRetiring(plan, f0, fleet, targets, ms, |ms|) && failed == RetireFailures(plan, ms)
    {
      hide Do;
      hide Run;
      hide SlotsRetiring;
      failed := 0;
      assert ms[0..] == ms;
      for j := 0 to |ms|
        invariant Valid(c) && start == old(start) && fleet.pc == Retiring(ms[j..])
        invariant SlotsRetiring(plan, f0, fleet, targets, ms, j) && failed == RetireFailures(plan, ms[..j])
      {
        ghost var s := fleet;
        Others(c, plan.world(ms[j].tenant, 4));
        StillRetiring(plan, f0, s, fleet, targets, ms, j);
        OneMoreRetired(c, plan, f0, fleet, targets, ms, j);
        assert ms[..j + 1][..j] == ms[..j];
        if plan.retireFails(ms[j].tenant) {
          Take(c, RetireFails);
          failed := failed + 1;
        } else {
          Take(c, Retire);
        }
      }
      assert ms[..|ms|] == ms && ms[|ms|..] == [];
    }

    method RotateAll(c: Config, plan: Plan, targets: seq<nat>) returns (failed: nat)
      requires Valid(c) && fleet.pc == Rotating(targets, Untouched, []) && DistinctTargets(targets)
      requires forall k :: 0 <= k < |targets| ==> targets[k] in fleet.tenants
      requires forall id :: c.bustsSucceed ==> !plan.bustFails(id)
      modifies this
      ensures Valid(c) && start == old(start)
      ensures Batched(plan, old(fleet), fleet, targets, |targets|)
      ensures failed == Failures(plan, old(fleet).tenants, targets)
    {
      hide Do;
      hide Run;
      ghost var f0 := fleet;
      failed := 0;
      assert targets[..0] == [] && targets[0..] == targets;
      hide TargetOk;
      hide Done;
      hide GivenUp;
      assert Batched(plan, f0, fleet, targets, 0) by {
        NoTargetYet(plan, f0, targets);
      }
      for i := 0 to |targets|
        invariant Valid(c) && start == old(start) && Batched(plan, f0, fleet, targets, i)
        invariant failed == Failures(plan, f0.tenants, targets[..i])
      {
        ghost var s := fleet;
        assert targets[i..][1..] == targets[i + 1..];
        var ok := RotateOne(c, plan, targets[i]);
        OneMoreTarget(plan, f0, s, fleet, targets, i);
        assert targets[..i + 1][..i] == targets[..i];
        if !ok {
          failed := failed + 1;
        }
      }
      assert targets[..|targets|] == targets;
    }

    /** A whole run that nothing cuts short. */
    method RotateCredentials(c: Config, plan: Plan, targets: seq<nat>, noRetire: bool) returns (failed: nat)
      requires Valid(c) && fleet.pc == Idle && DistinctTargets(targets)
      requires forall k :: 0 <= k < |targets| ==> targets[k] in fleet.tenants
      requires forall id :: c.bustsSucceed ==> !plan.bustFails(id)
      modifies this
      ensures Valid(c) && start == old(start) && fleet.pc == Idle && fleet.tenants.Keys == old(fleet).tenants.Keys
      ensures forall k :: 0 <= k < |targets| ==>
        Outcome(plan, old(fleet).tenants[targets[k]], fleet.tenants[targets[k]], targets[k], noRetire)
      ensures failed == Failures(plan, old(fleet).tenants, targets)
        + if noRetire then 0 else RetireFailures(plan, Moves(plan, old(fleet).tenants, targets))
    {
      hide Run;
      hide Do;
      Between(c, fleet, targets, noRetire);
      Take(c, Start(targets));
      ghost var f0 := fleet;
      failed := RotateAll(c, plan, targets);
      BatchedIsMoved(plan, f0, fleet, targets);
      var ms := fleet.pc.rotated;
      hide Batched;
      hide SlotsRetiring;
      hide Undisturbed;
      ghost var s := fleet;
      Between(c, fleet, targets, noRetire);
      Take(c, EndLoop(noRetire));
      StillRetiring(plan, f0, s, fleet, targets, ms, 0);
      if noRetire || ms == [] {
        Outcomes(plan, f0, fleet, targets, ms, noRetire);
        return;
      }
      s := fleet;
      Sleep(c, fleet.pc.until, plan.world(0, 5));
      Undisturbing(s, fleet);
      StillRetiring(plan, f0, s, fleet, targets, ms, 0);
      s := fleet;
      Between(c, fleet, targets, noRetire);
      Take(c, Wake);
      StillRetiring(plan, f0, s, fleet, targets, ms, 0);
      var retireFailed := RetireAll(c, plan, f0, targets, ms);
      failed := failed + retireFailed;
      s := fleet;
      Between(c, fleet, targets, noRetire);
      Take(c, End);
      StillRetiring(plan, f0, s, fleet, targets, ms, |ms|);
      Outcomes(plan, f0, fleet, targets, ms, noRetire);
    }
  }
}
