/**
 Dropping the abandoned source of a relocation: `dropSource` and `canonicalEndpoint` of
 scripts/tenant-relocate.ts, over any history of relocations and drops of one tenant.
 */
module DropSource {
  import opened Basics

  /** What matters of a Postgres URL. Two URLs of one server may differ in spelling out the port. */
  datatype Url = Url(host: string, port: Option<nat>, db: string)

  /** A server is a canonical host and port. */
  datatype Server = Server(host: string, port: nat)
  datatype Database = Database(server: Server, name: string)

  const DEFAULT_PORT: nat := 5432

  function Endpoint(u: Url): Server {
    Server(u.host, if u.port.Some? then u.port.value else DEFAULT_PORT)
  }

  function UrlForDb(base: Url, name: string): Url {
    base.(db := name)
  }

  datatype Outcome = Refused(reason: Reason) | Dropped(database: Database)
  datatype Reason = NoRecordedSource | IsLive | NotConfirmed

  /**
   The control plane's row and audit trail for a tenant, the databases that exist, and the servers
   that carry the tenant's login roles.
   */
  datatype Fleet =
    Fleet(dbName: string, live: Url, relocatedFrom: seq<Url>, databases: set<Database>, roles: set<Server>)

  function LiveDatabase(f: Fleet): Database {
    Database(Endpoint(f.live), f.live.db)
  }

  /** The host to drop: the flag, else the one recorded by the latest relocation. */
  function SourceOf(f: Fleet, flag: Option<Url>): Option<Url> {
    if flag.Some? then flag
    else if f.relocatedFrom == [] then None
    else Some(f.relocatedFrom[|f.relocatedFrom| - 1])
  }

  /** The guard of the source: same endpoint, or same host and same database name. */
  predicate LooksLive(f: Fleet, source: Url) {
    Endpoint(source) == Endpoint(f.live) || (source.host == f.live.host && f.dbName == f.live.db)
  }

  function Target(f: Fleet, source: Url): Database {
    Database(Endpoint(source), f.dbName)
  }

  // ---------------------------------------------------------------- histories

  /** How far a relocation got at its destination before it failed, or that it moved the tenant. */
  datatype Reached = Nothing | DatabaseMade | RolesMade | Moved

  datatype Event =
    | Relocate(base: Url, reached: Reached)
    | Drop(flag: Option<Url>, yes: bool, rolesDropped: bool)

  function DropOutcome(f: Fleet, flag: Option<Url>, yes: bool): Outcome {
    match SourceOf(f, flag)
    case None => Refused(NoRecordedSource)
    case Some(source) =>
      if LooksLive(f, source) then Refused(IsLive)
      else if !yes then Refused(NotConfirmed)
      else Dropped(Target(f, source))
  }

  /** A relocation refuses only an identical URL; a failed one may leave its destination behind. */
  function After(f: Fleet, e: Event): Fleet {
    match e
    case Relocate(base, reached) =>
      var to := UrlForDb(base, f.dbName);
      if to == f.live || reached.Nothing? then f
      else
        var made := f.(databases := f.databases + {Database(Endpoint(to), to.db)},
                       roles := if reached.DatabaseMade? then f.roles else f.roles + {Endpoint(to)});
        if reached.Moved? then made.(live := to, relocatedFrom := f.relocatedFrom + [f.live]) else made
    case Drop(flag, yes, rolesDropped) =>
      match DropOutcome(f, flag, yes)
      case Refused(_) => f
      case Dropped(d) =>
        f.(databases := f.databases - {d}, roles := if rolesDropped then f.roles - {d.server} else f.roles)
  }

  function Replay(f: Fleet, events: seq<Event>): Fleet
    decreases |events|
  {
    if events == [] then f else After(Replay(f, events[..|events| - 1]), events[|events| - 1])
  }

  /** The database the control plane names exists, and its server knows the tenant's roles. */
  predicate Reachable(f: Fleet) {
    LiveDatabase(f) in f.databases && Endpoint(f.live) in f.roles
  }

  /** No history of relocations and drops removes the live database, or the roles it is opened with. */
  lemma {:induction false} LiveDatabaseSurvives(f: Fleet, events: seq<Event>)
    requires Reachable(f)
    ensures Reachable(Replay(f, events))
    decreases |events|
  {
    if events != [] {
      LiveDatabaseSurvives(f, events[..|events| - 1]);
    }
  }

  /** What a drop removes is the tenant's copy and roles on the source, which is not the live server. */
  lemma DropIsExact(f: Fleet, flag: Option<Url>, yes: bool, rolesDropped: bool)
    ensures var f' := After(f, Drop(flag, yes, rolesDropped));
      if DropOutcome(f, flag, yes).Dropped? then
        && yes && SourceOf(f, flag).Some?
        && var source := SourceOf(f, flag).value;
           && f'.databases == f.databases - {Target(f, source)} && Target(f, source) != LiveDatabase(f)
           && f'.roles == (if rolesDropped then f.roles - {Endpoint(source)} else f.roles)
           && Endpoint(source) != Endpoint(f.live)
           && f'.live == f.live && f'.relocatedFrom == f.relocatedFrom
      else f' == f
  {
  }

  /**
   After a successful relocation, a confirmed drop without a flag removes the old copy exactly
   when the move was to another host name: a move between two ports of one host is refused,
   although it is not the live database.
   */
  lemma CleanUpAfterRelocation(f: Fleet, base: Url)
    requires f.live.db == f.dbName && UrlForDb(base, f.dbName) != f.live
    ensures var moved := After(f, Relocate(base, Moved));
      && (DropOutcome(moved, None, true) == Dropped(LiveDatabase(f)) <==> base.host != f.live.host)
      && (base.host == f.live.host ==> DropOutcome(moved, None, true) == Refused(IsLive))
  {
    var moved := After(f, Relocate(base, Moved));
    assert moved.relocatedFrom[|moved.relocatedFrom| - 1] == f.live;
  }

  /**
   When a drop happens, and what it drops: some source is known, it is confirmed, and the source
   is on another host, or on another port and the live database has not the tenant's name.
   */
  lemma DropHappensIff(f: Fleet, flag: Option<Url>, yes: bool)
    ensures flag.None? && f.relocatedFrom == [] ==> DropOutcome(f, flag, yes) == Refused(NoRecordedSource)
    ensures flag.Some? || f.relocatedFrom != [] ==>
      var source := if flag.Some? then flag.value else f.relocatedFrom[|f.relocatedFrom| - 1];
      var port := if source.port == None then 5432 else source.port.value;
      var livePort := if f.live.port == None then 5432 else f.live.port.value;
      DropOutcome(f, flag, yes)
      == if source.host == f.live.host && (port == livePort || f.dbName == f.live.db) then Refused(IsLive)
         else if yes then Dropped(Database(Server(source.host, port), f.dbName))
         else Refused(NotConfirmed)
  {
  }

  /** Spelling out the default port does not make another server of it. */
  lemma DefaultPortIsTheSameServer(f: Fleet, source: Url)
    requires source.host == f.live.host
    requires {source.port, f.live.port} == {None, Some(DEFAULT_PORT)}
    ensures DropOutcome(f, Some(source), true) == Refused(IsLive)
  {
  }

  // ---------------------------------------------------------------- the script

  class ControlPlane {
    const dbName: string
    var live: Url
    var relocatedFrom: seq<Url>
    var databases: set<Database>
    var roles: set<Server>

    ghost function Snapshot(): Fleet
      reads this
    {
      Fleet(dbName, live, relocatedFrom, databases, roles)
    }

    constructor (dbName: string, live: Url, databases: set<Database>, roles: set<Server>)
      ensures Snapshot() == Fleet(dbName, live, [], databases, roles)
    {
      this.dbName := dbName;
      this.live, this.relocatedFrom, this.databases, this.roles := live, [], databases, roles;
    }

    /** The guarded drop: it refuses before it has touched anything, or drops one database. */
    method DropSource(flag: Option<Url>, yes: bool, rolesDropped: bool) returns (out: Outcome)
      modifies this
      ensures out == DropOutcome(old(Snapshot()), flag, yes)
      ensures Snapshot() == After(old(Snapshot()), Drop(flag, yes, rolesDropped))
      ensures old(Reachable(Snapshot())) ==> Reachable(Snapshot())
    {
      var sourceUrl := flag;
      if sourceUrl.None? && |relocatedFrom| > 0 {
        sourceUrl := Some(relocatedFrom[|relocatedFrom| - 1]);
      }
      if sourceUrl.None? {
        return Refused(NoRecordedSource);
      }
      var current, source := Endpoint(live), Endpoint(sourceUrl.value);
      if source == current || (source.host == current.host && dbName == live.db) {
        return Refused(IsLive);
      }
      if !yes {
        return Refused(NotConfirmed);
      }
      var target := Database(source, dbName);
      databases := databases - {target};
      if rolesDropped {
        roles := roles - {source};
      }
      out := Dropped(target);
    }
  }
}
