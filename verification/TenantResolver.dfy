/**
 The tenant resolver's cache: apps/api/src/tenancy/tenant-resolver.service.ts (`resolveCached`).

 A positive entry in Redis is shared by all processes and holds no address; the address (and
 the credential inside it) lives in a map of each process, and is used only on a positive
 shared hit. `V` is what a process resolves to: an address, or a credential.
 */
module TenantResolver {
  import opened Basics

  datatype Entry<V> = Entry(value: V, since: nat)
  datatype Cache<V> = Cache(shared: bool, local: map<nat, Entry<V>>)

  /** The local entry has not outlived the cache TTL. */
  predicate Live<V>(e: Entry<V>, now: nat, ttl: nat) {
    now <= e.since + ttl
  }

  predicate Hit<V>(c: Cache<V>, p: nat, now: nat, ttl: nat) {
    c.shared && p in c.local && Live(c.local[p], now, ttl)
  }

  /** Process `p` resolves; on a miss it reads the control plane's `row` and fills both caches. */
  function Resolved<V>(c: Cache<V>, p: nat, row: V, now: nat, ttl: nat): V {
    if Hit(c, p, now, ttl) then c.local[p].value else row
  }

  function AfterResolve<V>(c: Cache<V>, p: nat, row: V, now: nat, ttl: nat): Cache<V> {
    if Hit(c, p, now, ttl) then c else Cache(true, c.local[p := Entry(row, now)])
  }

  /** The shared entry is deleted, or expires: the local maps of other processes are out of reach. */
  function Bust<V>(c: Cache<V>): Cache<V> {
    c.(shared := false)
  }

  function Forget<V>(c: Cache<V>, p: nat): Cache<V> {
    c.(local := c.local - {p})
  }

  /** Only processes of the fleet have entries, and none is from the future. */
  ghost predicate Fits<V(!new)>(c: Cache<V>, procs: set<nat>, now: nat) {
    forall p :: p in c.local ==> p in procs && c.local[p].since <= now
  }

  /** Every entry that is not `row` was made no later than `t`. */
  ghost predicate StaleSince<V(!new)>(c: Cache<V>, row: V, t: int) {
    forall p :: p in c.local && c.local[p].value != row ==> c.local[p].since <= t
  }

  /** A shared hit cannot give anything but `row`. */
  ghost predicate Current<V(!new)>(c: Cache<V>, row: V) {
    c.shared ==> forall p :: p in c.local ==> c.local[p].value == row
  }

  lemma ResolveFits<V(!new)>(c: Cache<V>, p: nat, row: V, now: nat, ttl: nat, procs: set<nat>)
    requires p in procs && Fits(c, procs, now)
    ensures Fits(AfterResolve(c, p, row, now, ttl), procs, now)
  {
  }

  /** Resolving keeps both, the second for a fleet of one process. */
  lemma ResolveKeeps<V(!new)>(c: Cache<V>, p: nat, row: V, now: nat, ttl: nat, procs: set<nat>, t: int)
    requires p in procs && Fits(c, procs, now) && StaleSince(c, row, t)
    ensures Fits(AfterResolve(c, p, row, now, ttl), procs, now)
    ensures StaleSince(AfterResolve(c, p, row, now, ttl), row, t)
    ensures Current(c, row) && procs <= {p} ==> Current(AfterResolve(c, p, row, now, ttl), row)
    ensures Current(c, row) ==> Resolved(c, p, row, now, ttl) == row
    ensures now > t + ttl ==> Resolved(c, p, row, now, ttl) == row
  {
    assert procs <= {p} ==> forall q :: q in procs ==> q == p;
  }

  /** After a bust, one process re-reads the control plane at once. */
  lemma BustIsCurrent<V(!new)>(c: Cache<V>, row: V)
    ensures Current(Bust(c), row)
  {
  }

  /** What happens to the cache of a fleet of one process `p`. */
  datatype Event = Resolves(now: nat) | Expires | Evicts

  function Later<V>(c: Cache<V>, p: nat, row: V, events: seq<Event>, ttl: nat): Cache<V>
    decreases |events|
  {
    if events == [] then c
    else
      var before := Later(c, p, row, events[..|events| - 1], ttl);
      match events[|events| - 1]
      case Resolves(now) => AfterResolve(before, p, row, now, ttl)
      case Expires => Bust(before)
      case Evicts => Forget(before, p)
  }

  /** Once busted, a fleet of one process never gets anything but the row again, whatever comes. */
  lemma {:induction false} BustServesOneProcess<V(!new)>(c: Cache<V>, p: nat, row: V, events: seq<Event>, now: nat, ttl: nat)
    requires forall q :: q in c.local ==> q == p
    ensures Current(Later(Bust(c), p, row, events, ttl), row)
    ensures forall q :: q in Later(Bust(c), p, row, events, ttl).local ==> q == p
    ensures Resolved(Later(Bust(c), p, row, events, ttl), p, row, now, ttl) == row
    decreases |events|
  {
    if events != [] {
      BustServesOneProcess(c, p, row, events[..|events| - 1], now, ttl);
    }
  }

  /** With two processes a bust is not enough: the second refills Redis, the first keeps its address. */
  lemma BustMissesSecondProcess<V(!new)>(c: Cache<V>, p: nat, q: nat, row: V, now: nat, ttl: nat)
    requires p != q && p in c.local && Live(c.local[p], now, ttl)
    ensures var c' := AfterResolve(Bust(c), q, row, now, ttl);
      Resolved(Bust(c), q, row, now, ttl) == row && Resolved(c', p, row, now, ttl) == c.local[p].value
  {
  }

  lemma TwoOf(procs: set<nat>) returns (p: nat, q: nat)
    requires |procs| >= 2
    ensures p in procs && q in procs && p != q
  {
    p :| p in procs;
    assert |procs - {p}| == |procs| - 1;
    q :| q in procs - {p};
  }

  lemma SoleProcess(procs: set<nat>, p: nat)
    requires |procs| <= 1 && p in procs
    ensures procs <= {p}
  {
    if !(procs <= {p}) {
      var q :| q in procs && q != p;
      assert {p, q} <= procs;
      SubsetSize({p, q}, procs);
    }
  }
}
