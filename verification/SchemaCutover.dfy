/**
 The 2.0 cutover of a tenant database and its undoing: scripts/tenant-upgrade-v2.ts and
 scripts/tenant-rollback-v2.ts.

 A catalogue is what Postgres keeps: schemas have an identity that a rename does not change,
 objects and extensions live in a schema, and objects use objects and extensions.
 `DROP SCHEMA … CASCADE` deletes whatever depends, through any chain, on what the schema holds.
 */
module SchemaCutover {
  import opened Basics

  datatype Thing = Object(id: nat) | Extension(name: string)

  datatype Kind = Table(name: string) | Column(table: string, name: string) | Index(name: string) | Other
  datatype Obj = Obj(schema: nat, kind: Kind, uses: set<Thing>)

  datatype Catalog = Catalog(names: map<string, nat>, objects: map<nat, Obj>, extensions: map<string, nat>)

  // ---------------------------------------------------------------- statements

  /** ALTER SCHEMA a RENAME TO b */
  function Rename(cat: Catalog, a: string, b: string): Option<Catalog> {
    if a in cat.names && b !in cat.names then Some(cat.(names := (cat.names - {a})[b := cat.names[a]])) else None
  }

  /** ALTER EXTENSION e SET SCHEMA s */
  function SetSchema(cat: Catalog, e: string, s: string): Option<Catalog> {
    if e in cat.extensions && s in cat.names
    then Some(cat.(extensions := cat.extensions[e := cat.names[s]])) else None
  }

  function Home(cat: Catalog, es: seq<string>, s: string): Option<Catalog>
    decreases |es|
  {
    if es == [] then Some(cat)
    else
      match SetSchema(cat, es[0], s)
      case None => None
      case Some(moved) => Home(moved, es[1..], s)
  }

  function ObjectsIn(cat: Catalog, sid: nat): set<Thing> {
    set o | o in cat.objects && cat.objects[o].schema == sid :: Object(o)
  }

  function ExtensionsIn(cat: Catalog, sid: nat): set<Thing> {
    set e | e in cat.extensions && cat.extensions[e] == sid :: Extension(e)
  }

  function Standing(cat: Catalog, fallen: set<Thing>): set<nat> {
    set o | o in cat.objects && Object(o) !in fallen
  }

  predicate Uses(cat: Catalog, o: nat, ts: set<Thing>) {
    o in cat.objects && cat.objects[o].uses * ts != {}
  }

  /** Whatever uses something fallen falls too. */
  function Fall(cat: Catalog, fallen: set<Thing>): set<Thing>
    decreases |Standing(cat, fallen)|
  {
    var next := set o | o in Standing(cat, fallen) && Uses(cat, o, fallen) :: Object(o);
    if next == {} then fallen
    else
      FewerStand(cat, fallen, next);
      Fall(cat, fallen + next)
  }

  lemma FewerStand(cat: Catalog, fallen: set<Thing>, next: set<Thing>)
    requires next != {} && forall t :: t in next ==> t.Object? && t.id in Standing(cat, fallen)
    ensures |Standing(cat, fallen + next)| < |Standing(cat, fallen)|
  {
    var t :| t in next;
    assert Standing(cat, fallen + next) <= Standing(cat, fallen) - {t.id};
    SubsetSize(Standing(cat, fallen + next), Standing(cat, fallen) - {t.id});
  }

  function Doomed(cat: Catalog, sid: nat): set<Thing> {
    Fall(cat, ObjectsIn(cat, sid) + ExtensionsIn(cat, sid))
  }

  function Without(cat: Catalog, gone: set<Thing>): Catalog {
    cat.(objects := map o | o in cat.objects && Object(o) !in gone :: cat.objects[o],
         extensions := map e | e in cat.extensions && Extension(e) !in gone :: cat.extensions[e])
  }

  /** DROP SCHEMA s CASCADE */
  function DropCascade(cat: Catalog, s: string): Option<Catalog> {
    if s in cat.names
    then Some(Without(cat, Doomed(cat, cat.names[s])).(names := cat.names - {s})) else None
  }

  // ---------------------------------------------------------------- what CASCADE deletes

  /** Only objects fall besides what fell first. */
  lemma FallAddsObjects(cat: Catalog, fallen: set<Thing>, t: Thing)
    requires t in Fall(cat, fallen)
    ensures t in fallen || (t.Object? && t.id in cat.objects)
  {
    var bound := fallen + set o | o in cat.objects :: Object(o);
    forall o | Uses(cat, o, bound)
      ensures Object(o) in bound
    {
    }
    FallStaysWithin(cat, fallen, bound);
  }

  /** A chain of dependencies. */
  ghost predicate IsChain(cat: Catalog, path: seq<Thing>) {
    path != [] && forall i :: 0 <= i < |path| - 1 ==>
      path[i].Object? && path[i].id in cat.objects && path[i + 1] in cat.objects[path[i].id].uses
  }

  ghost predicate DependsOn(cat: Catalog, t: Thing, goal: set<Thing>) {
    exists path :: IsChain(cat, path) && path[0] == t && path[|path| - 1] in goal
  }

  /** Closed: whatever uses something inside is inside. */
  ghost predicate Closed(cat: Catalog, ts: set<Thing>) {
    forall o :: Uses(cat, o, ts) ==> Object(o) in ts
  }

  lemma {:induction false} FallIsClosed(cat: Catalog, fallen: set<Thing>)
    ensures fallen <= Fall(cat, fallen) && Closed(cat, Fall(cat, fallen))
    decreases |Standing(cat, fallen)|
  {
    var next := set o | o in Standing(cat, fallen) && Uses(cat, o, fallen) :: Object(o);
    if next == {} {
      forall o | Uses(cat, o, fallen)
        ensures Object(o) in fallen
      {
        assert o !in Standing(cat, fallen) || Object(o) in next;
      }
    } else {
      FewerStand(cat, fallen, next);
      FallIsClosed(cat, fallen + next);
    }
  }

  lemma {:induction false} FallStaysWithin(cat: Catalog, fallen: set<Thing>, bound: set<Thing>)
    requires fallen <= bound && Closed(cat, bound)
    ensures Fall(cat, fallen) <= bound
    decreases |Standing(cat, fallen)|
  {
    var next := set o | o in Standing(cat, fallen) && Uses(cat, o, fallen) :: Object(o);
    if next != {} {
      forall t | t in next
        ensures t in bound
      {
        var u :| u in cat.objects[t.id].uses * fallen;
        assert u in cat.objects[t.id].uses * bound;
      }
      FewerStand(cat, fallen, next);
      FallStaysWithin(cat, fallen + next, bound);
    }
  }

  lemma {:induction false} ChainFalls(cat: Catalog, ts: set<Thing>, path: seq<Thing>)
    requires Closed(cat, ts) && IsChain(cat, path) && path[|path| - 1] in ts
    ensures path[0] in ts
    decreases |path|
  {
    if |path| > 1 {
      var rest := path[1..];
      forall i | 0 <= i < |rest| - 1
        ensures rest[i].Object? && rest[i].id in cat.objects && rest[i + 1] in cat.objects[rest[i].id].uses
      {
        assert rest[i] == path[i + 1] && rest[i + 1] == path[i + 2];
      }
      ChainFalls(cat, ts, rest);
      assert path[1] in cat.objects[path[0].id].uses * ts;
      assert Uses(cat, path[0].id, ts);
    }
  }

  lemma ChainGrows(cat: Catalog, o: nat, u: Thing, goal: set<Thing>)
    requires o in cat.objects && u in cat.objects[o].uses && DependsOn(cat, u, goal)
    ensures DependsOn(cat, Object(o), goal)
  {
    var path :| IsChain(cat, path) && path[0] == u && path[|path| - 1] in goal;
    var longer := [Object(o)] + path;
    forall i | 0 <= i < |longer| - 1
      ensures longer[i].Object? && longer[i].id in cat.objects && longer[i + 1] in cat.objects[longer[i].id].uses
    {
      if i > 0 {
        assert longer[i] == path[i - 1] && longer[i + 1] == path[i];
      }
    }
    assert IsChain(cat, longer);
  }

  lemma {:induction false} FallenDepend(cat: Catalog, fallen: set<Thing>, goal: set<Thing>)
    requires forall t :: t in fallen ==> DependsOn(cat, t, goal)
    ensures forall t :: t in Fall(cat, fallen) ==> DependsOn(cat, t, goal)
    decreases |Standing(cat, fallen)|
  {
    var next := set o | o in Standing(cat, fallen) && Uses(cat, o, fallen) :: Object(o);
    if next != {} {
      forall t | t in next
        ensures DependsOn(cat, t, goal)
      {
        var u :| u in cat.objects[t.id].uses * fallen;
        ChainGrows(cat, t.id, u, goal);
      }
      FewerStand(cat, fallen, next);
      FallenDepend(cat, fallen + next, goal);
    }
  }

  /** CASCADE deletes exactly what a chain of dependencies ties to the schema. */
  lemma CascadeIsReachability(cat: Catalog, seeds: set<Thing>, t: Thing)
    ensures t in Fall(cat, seeds) <==> DependsOn(cat, t, seeds)
  {
    FallIsClosed(cat, seeds);
    forall u | u in seeds
      ensures DependsOn(cat, u, seeds)
    {
      assert IsChain(cat, [u]);
    }
    FallenDepend(cat, seeds, seeds);
    if DependsOn(cat, t, seeds) {
      var path :| IsChain(cat, path) && path[0] == t && path[|path| - 1] in seeds;
      ChainFalls(cat, Fall(cat, seeds), path);
    }
  }

  /** Nothing outside the schema uses its objects. */
  ghost predicate Untangled(cat: Catalog, sid: nat) {
    forall o :: o in cat.objects && cat.objects[o].schema != sid ==> !Uses(cat, o, ObjectsIn(cat, sid))
  }

  /** An object outside an untangled schema falls exactly when a chain ties it to an extension there. */
  lemma OnlyExtensionsCross(cat: Catalog, sid: nat, o: nat)
    requires Untangled(cat, sid) && o in cat.objects && cat.objects[o].schema != sid
    ensures Object(o) in Doomed(cat, sid) <==> DependsOn(cat, Object(o), ExtensionsIn(cat, sid))
  {
    var seeds := ObjectsIn(cat, sid) + ExtensionsIn(cat, sid);
    CascadeIsReachability(cat, seeds, Object(o));
    if DependsOn(cat, Object(o), seeds) {
      var path :| IsChain(cat, path) && path[0] == Object(o) && path[|path| - 1] in seeds;
      ChainStaysOutside(cat, sid, path, |path| - 1);
      assert path[|path| - 1] in ExtensionsIn(cat, sid);
    }
    if DependsOn(cat, Object(o), ExtensionsIn(cat, sid)) {
      var path :| IsChain(cat, path) && path[0] == Object(o) && path[|path| - 1] in ExtensionsIn(cat, sid);
      assert path[|path| - 1] in seeds;
    }
  }

  lemma {:induction false} ChainStaysOutside(cat: Catalog, sid: nat, path: seq<Thing>, i: nat)
    requires Untangled(cat, sid) && IsChain(cat, path) && path[0] !in ObjectsIn(cat, sid) && i < |path|
    ensures path[i] !in ObjectsIn(cat, sid)
  {
    if i > 0 {
      ChainStaysOutside(cat, sid, path, i - 1);
      var o := path[i - 1].id;
      assert cat.objects[o].schema != sid;
      var shared := cat.objects[o].uses * ObjectsIn(cat, sid);
      assert !Uses(cat, o, ObjectsIn(cat, sid)) && shared == {};
      assert path[i] !in shared;
    }
  }

  /** A schema without extensions drops alone exactly when nothing outside uses its objects. */
  lemma DropsAloneIff(cat: Catalog, sid: nat)
    requires ExtensionsIn(cat, sid) == {}
    ensures Doomed(cat, sid) == ObjectsIn(cat, sid) <==> Untangled(cat, sid)
  {
    var seeds := ObjectsIn(cat, sid) + ExtensionsIn(cat, sid);
    assert seeds == ObjectsIn(cat, sid);
    FallIsClosed(cat, seeds);
    if Untangled(cat, sid) {
      assert Closed(cat, seeds);
      FallStaysWithin(cat, seeds, seeds);
    }
    if Doomed(cat, sid) == ObjectsIn(cat, sid) {
      forall o | o in cat.objects && cat.objects[o].schema != sid
        ensures !Uses(cat, o, ObjectsIn(cat, sid))
      {
      }
    }
  }

  // ---------------------------------------------------------------- the two scripts

  /** RELOCATED_EXTENSIONS, and EXTENSIONS of the rollback. */
  const Relocated: seq<string> := ["unaccent", "pg_trgm", "citext", "pgcrypto", "btree_gist", "btree_gin"]

  /** Work inside one schema: its objects become `objs`, nothing else changes. */
  function Rewrite(cat: Catalog, sid: nat, objs: map<nat, Obj>): Catalog {
    cat.(objects :=
      (map o | o in cat.objects && cat.objects[o].schema != sid :: cat.objects[o]) +
      (map o | o in objs && !(o in cat.objects && cat.objects[o].schema != sid) :: objs[o].(schema := sid)))
  }

  /** Assertion H03: every extension but plpgsql lives in `public`. */
  predicate ExtensionsHome(cat: Catalog) {
    "public" in cat.names
    && forall e :: e in cat.extensions ==> e == "plpgsql" || cat.extensions[e] == cat.names["public"]
  }

  /** The rename, the copy-forward into `lbr2`, and the promotion, without the extension moves. */
  function Promote(cat: Catalog, copied: map<nat, Obj>): Option<Catalog> {
    match Rename(cat, "public", "v1_archive")
    case None => None
    case Some(archived) =>
      if "lbr2" !in archived.names then None
      else Rename(Rewrite(archived, archived.names["lbr2"], copied), "lbr2", "public")
  }

  function CutOver(cat: Catalog, copied: map<nat, Obj>): Option<Catalog> {
    match Promote(cat, copied)
    case None => None
    case Some(promoted) =>
      match Home(promoted, Relocated, "public")
      case None => None
      case Some(moved) => if ExtensionsHome(moved) then Some(moved) else None
  }

  predicate HasTable(cat: Catalog, schema: string, table: string) {
    schema in cat.names
    && exists o :: o in cat.objects && cat.objects[o].schema == cat.names[schema] && cat.objects[o].kind == Table(table)
  }

  /** The shape a cutover leaves. */
  predicate Shaped(cat: Catalog) {
    HasTable(cat, "public", "marc_records") && HasTable(cat, "v1_archive", "books")
  }

  predicate EndsWith(s: string, suffix: string) {
    |suffix| <= |s| && s[|s| - |suffix|..] == suffix
  }

  predicate IsTrigramIndex(kind: Kind) {
    kind.Index? && EndsWith(kind.name, "trgm")
  }

  function TrigramIndexes(cat: Catalog, sid: nat): set<nat> {
    set o | o in cat.objects && cat.objects[o].schema == sid && IsTrigramIndex(cat.objects[o].kind)
  }

  /** The four checks the rollback makes before it commits. */
  predicate Sound(cat: Catalog) {
    && "public" in cat.names
    && var sid := cat.names["public"];
       && (exists o :: o in cat.objects && cat.objects[o].schema == sid && cat.objects[o].kind == Column("members", "email"))
       && |TrigramIndexes(cat, sid)| >= 4
       && |cat.extensions.Keys - {"plpgsql"}| == |Relocated|
       && "citext" in cat.extensions && cat.extensions["citext"] == sid
  }

  /** The extensions go home, `public` is dropped, the archive takes its name. */
  function Undo(cat: Catalog): Option<Catalog> {
    match Home(cat, Relocated, "v1_archive")
    case None => None
    case Some(moved) => Swap(moved)
  }

  /** The two statements of the plan of record. */
  function Swap(cat: Catalog): Option<Catalog> {
    match DropCascade(cat, "public")
    case None => None
    case Some(dropped) => Rename(dropped, "v1_archive", "public")
  }

  function RollBack(cat: Catalog): Option<Catalog> {
    if !Shaped(cat) then None
    else
      match Undo(cat)
      case None => None
      case Some(undone) => if Sound(undone) then Some(undone) else None
  }

  // ---------------------------------------------------------------- after a cutover

  /** Schema names are unique, and `plpgsql` is where Postgres puts it. */
  ghost predicate Legal(cat: Catalog) {
    && (forall a, b :: a in cat.names && b in cat.names && cat.names[a] == cat.names[b] ==> a == b)
    && ("plpgsql" in cat.extensions && "public" in cat.names ==> cat.extensions["plpgsql"] != cat.names["public"])
    && ("plpgsql" in cat.extensions && "lbr2" in cat.names ==> cat.extensions["plpgsql"] != cat.names["lbr2"])
  }

  lemma {:induction false} HomeMoves(cat: Catalog, es: seq<string>, s: string)
    requires Home(cat, es, s).Some?
    ensures es != [] ==> s in cat.names
    ensures forall e :: e in es ==> e in cat.extensions
    ensures var r := Home(cat, es, s).value;
      && r == cat.(extensions := r.extensions) && r.extensions.Keys == cat.extensions.Keys
      && forall e :: e in cat.extensions ==> r.extensions[e] == if e in es then cat.names[s] else cat.extensions[e]
    decreases |es|
  {
    if es != [] {
      HomeMoves(SetSchema(cat, es[0], s).value, es[1..], s);
      assert es == [es[0]] + es[1..];
    }
  }

  lemma {:induction false} HomeSucceeds(cat: Catalog, es: seq<string>, s: string)
    requires s in cat.names && forall e :: e in es ==> e in cat.extensions
    ensures Home(cat, es, s).Some?
    decreases |es|
  {
    if es != [] {
      HomeSucceeds(SetSchema(cat, es[0], s).value, es[1..], s);
    }
  }

  lemma PromoteLeaves(cat: Catalog, copied: map<nat, Obj>)
    requires Promote(cat, copied).Some?
    ensures "public" in cat.names && "lbr2" in cat.names && "v1_archive" !in cat.names
    ensures var r := Promote(cat, copied).value;
      && r.names == (cat.names - {"public", "lbr2"})["v1_archive" := cat.names["public"]]["public" := cat.names["lbr2"]]
      && r.objects == Rewrite(cat, cat.names["lbr2"], copied).objects && r.extensions == cat.extensions
  {
    assert "public" != "lbr2" && "v1_archive" != "public" && "v1_archive" != "lbr2";
  }

  /** What a cutover leaves: two schemas, the old one without extensions. */
  lemma CutoverLeaves(cat: Catalog, copied: map<nat, Obj>)
    requires Legal(cat) && CutOver(cat, copied).Some?
    ensures "public" in cat.names && "lbr2" in cat.names && cat.names["public"] != cat.names["lbr2"]
    ensures var r := CutOver(cat, copied).value;
      && r.names == (cat.names - {"public", "lbr2"})["v1_archive" := cat.names["public"]]["public" := cat.names["lbr2"]]
      && r.objects == Rewrite(cat, cat.names["lbr2"], copied).objects
      && r.extensions.Keys == cat.extensions.Keys
      && (forall e :: e in cat.extensions ==>
            r.extensions[e] == if e == "plpgsql" then cat.extensions[e] else cat.names["lbr2"])
      && (forall e :: e in cat.extensions && e !in Relocated ==> r.extensions[e] == cat.extensions[e])
      && ExtensionsIn(r, cat.names["public"]) == {}
    ensures "v1_archive" !in cat.names && forall e :: e in Relocated ==> e in cat.extensions
  {
    PromoteLeaves(cat, copied);
    hide Promote;
    hide Rewrite;
    var promoted := Promote(cat, copied).value;
    HomeMoves(promoted, Relocated, "public");
    hide Home;
    PlpgsqlStays();
  }

  lemma PlpgsqlStays()
    ensures "plpgsql" !in Relocated
  {
    assert forall e :: e in Relocated ==> e[0] != 'p' || e[1] != 'l';
  }

  /** The objects of the other schemas. */
  function Outside(cat: Catalog, sid: nat): map<nat, Obj> {
    map o | o in cat.objects && cat.objects[o].schema != sid :: cat.objects[o]
  }

  /** The catalogue without one schema and its own objects. */
  function Lone(cat: Catalog, s: string): Catalog
    requires s in cat.names
  {
    cat.(names := cat.names - {s}, objects := Outside(cat, cat.names[s]))
  }

  lemma ExtensionsSurvive(cat: Catalog, s: string)
    requires s in cat.names && ExtensionsIn(cat, cat.names[s]) == {}
    ensures DropCascade(cat, s).value.extensions == cat.extensions
  {
    var sid := cat.names[s];
    forall e | e in cat.extensions
      ensures Extension(e) !in Doomed(cat, sid)
    {
      if Extension(e) in Doomed(cat, sid) {
        FallAddsObjects(cat, ObjectsIn(cat, sid) + ExtensionsIn(cat, sid), Extension(e));
        assert false;
      }
    }
  }

  lemma DoomedObjects(cat: Catalog, s: string)
    requires s in cat.names && ExtensionsIn(cat, cat.names[s]) == {}
    ensures DropCascade(cat, s).value.objects == Lone(cat, s).objects
      <==> Doomed(cat, cat.names[s]) == ObjectsIn(cat, cat.names[s])
  {
    var sid, after := cat.names[s], DropCascade(cat, s).value;
    var seeds := ObjectsIn(cat, sid) + ExtensionsIn(cat, sid);
    FallIsClosed(cat, seeds);
    if after.objects == Lone(cat, s).objects {
      forall t | t in Doomed(cat, sid)
        ensures t in ObjectsIn(cat, sid)
      {
        FallAddsObjects(cat, seeds, t);
        assert t.Object? && t.id !in after.objects;
        assert t.id !in Lone(cat, s).objects;
      }
    }
    if Doomed(cat, sid) == ObjectsIn(cat, sid) {
      assert after.objects == Lone(cat, s).objects;
    }
  }

  lemma DropIsExactIff(cat: Catalog, s: string)
    requires s in cat.names && ExtensionsIn(cat, cat.names[s]) == {}
    ensures DropCascade(cat, s) == Some(Lone(cat, s)) <==> Untangled(cat, cat.names[s])
  {
    hide Doomed;
    hide Untangled;
    DropsAloneIff(cat, cat.names[s]);
    ExtensionsSurvive(cat, s);
    DoomedObjects(cat, s);
  }

  /** The names after a cutover and after its undoing. */
  function Swapped(names: map<string, nat>): map<string, nat>
    requires "public" in names && "lbr2" in names
  {
    (names - {"public", "lbr2"})["v1_archive" := names["public"]]["public" := names["lbr2"]]
  }

  lemma NamesGoBack(names: map<string, nat>)
    requires "public" in names && "lbr2" in names && "v1_archive" !in names
    ensures (Swapped(names) - {"public"} - {"v1_archive"})["public" := names["public"]] == names - {"lbr2"}
  {
    assert "public" != "lbr2" && "v1_archive" != "public" && "v1_archive" != "lbr2";
  }

  /** Work inside one schema, any number of times, leaves the rest alone. */
  lemma WorkStaysInside(cat: Catalog, sid: nat, a: map<nat, Obj>, b: map<nat, Obj>)
    ensures Outside(Rewrite(cat, sid, a), sid) == Outside(cat, sid)
    ensures Outside(Rewrite(Rewrite(cat, sid, a), sid, b), sid) == Outside(cat, sid)
  {
  }

  /** What the work leaves in the schema is `objs`, whatever was there before it. */
  lemma LastWorkStands(cat: Catalog, sid: nat, a: map<nat, Obj>, b: map<nat, Obj>)
    ensures Rewrite(Rewrite(cat, sid, a), sid, b) == Rewrite(cat, sid, b)
  {
    var once := Rewrite(cat, sid, a);
    WorkStaysInside(cat, sid, a, b);
    OutsideDecides(cat, once, sid, b);
  }

  lemma RewriteAt(cat: Catalog, sid: nat, objs: map<nat, Obj>, o: nat)
    ensures o in Rewrite(cat, sid, objs).objects <==> o in Outside(cat, sid) || o in objs
    ensures o in Outside(cat, sid) ==> Rewrite(cat, sid, objs).objects[o] == Outside(cat, sid)[o]
    ensures o !in Outside(cat, sid) && o in objs ==> Rewrite(cat, sid, objs).objects[o] == objs[o].(schema := sid)
  {
  }

  lemma OutsideDecides(cat: Catalog, cat': Catalog, sid: nat, objs: map<nat, Obj>)
    requires Outside(cat', sid) == Outside(cat, sid)
    ensures Rewrite(cat', sid, objs).objects == Rewrite(cat, sid, objs).objects
  {
    hide Rewrite;
    hide Outside;
    var a, b := Rewrite(cat', sid, objs).objects, Rewrite(cat, sid, objs).objects;
    forall o
      ensures (o in a <==> o in b) && (o in a ==> a[o] == b[o])
    {
      RewriteAt(cat, sid, objs, o);
      RewriteAt(cat', sid, objs, o);
    }
  }

  /** Work that leaves what is there leaves the catalogue. */
  lemma IdleWork(cat: Catalog, sid: nat, objs: map<nat, Obj>)
    requires forall o :: o in objs <==> o in cat.objects && cat.objects[o].schema == sid
    requires forall o :: o in objs ==> objs[o] == cat.objects[o]
    ensures Rewrite(cat, sid, objs) == cat
  {
    assert Rewrite(cat, sid, objs).objects == cat.objects;
  }

  /** A cutover, and any 2.0 work since. */
  ghost predicate CutOverFrom(cat: Catalog, live: Catalog) {
    && Legal(cat)
    && exists copied, later :: CutOver(cat, copied).Some? && live == Rewrite(CutOver(cat, copied).value, cat.names["lbr2"], later)
  }

  lemma WhatCutoverLeft(cat: Catalog, live: Catalog)
    requires CutOverFrom(cat, live)
    ensures "public" in cat.names && "lbr2" in cat.names && "v1_archive" !in cat.names
    ensures cat.names["public"] != cat.names["lbr2"]
    ensures live.names == Swapped(cat.names)
    ensures Outside(live, cat.names["lbr2"]) == Outside(cat, cat.names["lbr2"])
    ensures live.extensions.Keys == cat.extensions.Keys
    ensures forall e :: e in cat.extensions ==>
      live.extensions[e] == if e == "plpgsql" then cat.extensions[e] else cat.names["lbr2"]
    ensures forall e :: e in cat.extensions && e !in Relocated ==> live.extensions[e] == cat.extensions[e]
    ensures forall e :: e in Relocated ==> e in cat.extensions
  {
    var copied, later :| CutOver(cat, copied).Some? && live == Rewrite(CutOver(cat, copied).value, cat.names["lbr2"], later);
    CutoverLeaves(cat, copied);
    WorkStaysInside(cat, cat.names["lbr2"], copied, later);
    hide CutOver;
    assert live.objects == Rewrite(Rewrite(cat, cat.names["lbr2"], copied), cat.names["lbr2"], later).objects;
  }

  /**
   After the cutover and any 2.0 work, dropping the archive deletes exactly the 1.0 objects, and
   no extension, if and only if no other object uses a 1.0 one.
   */
  lemma ArchiveDropIsExactIff(cat: Catalog, live: Catalog)
    requires CutOverFrom(cat, live)
    ensures "public" in cat.names && "v1_archive" in live.names
    ensures DropCascade(live, "v1_archive") == Some(Lone(live, "v1_archive")) <==> Untangled(live, cat.names["public"])
  {
    WhatCutoverLeft(cat, live);
    assert ExtensionsIn(live, cat.names["public"]) == {};
    DropIsExactIff(live, "v1_archive");
  }

  /** Without the extension moves, the same statement also deletes every 2.0 object tied to an extension. */
  lemma UnmovedExtensionsTakeTwoZeroAlong(cat: Catalog, copied: map<nat, Obj>, later: map<nat, Obj>, o: nat)
    requires Legal(cat) && Promote(cat, copied).Some?
    requires var live := Rewrite(Promote(cat, copied).value, cat.names["lbr2"], later);
      Untangled(live, cat.names["public"]) && o in live.objects && live.objects[o].schema != cat.names["public"]
    ensures var live := Rewrite(Promote(cat, copied).value, cat.names["lbr2"], later);
      && ExtensionsIn(live, cat.names["public"]) == ExtensionsIn(cat, cat.names["public"])
      && DropCascade(live, "v1_archive").Some?
      && (o in DropCascade(live, "v1_archive").value.objects
          <==> !DependsOn(live, Object(o), ExtensionsIn(live, cat.names["public"])))
  {
    var live := Rewrite(Promote(cat, copied).value, cat.names["lbr2"], later);
    OnlyExtensionsCross(live, cat.names["public"], o);
  }

  // ---------------------------------------------------------------- after a rollback

  lemma PublicIsTwoZero(cat: Catalog, live: Catalog)
    requires CutOverFrom(cat, live)
    ensures "public" in live.names && "v1_archive" in live.names && "lbr2" in cat.names
    ensures live.names["public"] == cat.names["lbr2"]
    ensures live.extensions.Keys == cat.extensions.Keys
    ensures forall e :: e in live.extensions && e != "plpgsql" ==> live.extensions[e] == cat.names["lbr2"]
  {
    WhatCutoverLeft(cat, live);
    hide CutOverFrom;
    hide Relocated;
  }

  /** What the cutover did to the extensions. */
  lemma ExtensionsWere(cat: Catalog, live: Catalog)
    requires CutOverFrom(cat, live) && ExtensionsHome(cat)
    ensures "public" in cat.names && "lbr2" in cat.names && "v1_archive" in live.names
    ensures live.names["v1_archive"] == cat.names["public"] && cat.names["public"] != cat.names["lbr2"]
    ensures live.extensions.Keys == cat.extensions.Keys
    ensures forall e :: e in cat.extensions ==>
      cat.extensions[e] == if e in Relocated then cat.names["public"] else live.extensions[e]
    ensures forall e :: e in Relocated ==> e in cat.extensions
    ensures forall e :: e in cat.extensions ==> cat.extensions[e] != cat.names["lbr2"]
  {
    WhatCutoverLeft(cat, live);
    PlpgsqlStays();
    hide CutOverFrom;
    hide Relocated;
    hide Outside;
  }

  lemma ExtensionsGoHome(cat: Catalog, live: Catalog) returns (home: Catalog)
    requires CutOverFrom(cat, live) && ExtensionsHome(cat)
    ensures Home(live, Relocated, "v1_archive") == Some(home)
    ensures home.names == live.names && home.objects == live.objects && home.extensions == cat.extensions
    ensures "lbr2" in cat.names && ExtensionsIn(home, cat.names["lbr2"]) == {}
  {
    ExtensionsWere(cat, live);
    hide CutOverFrom;
    hide ExtensionsHome;
    hide Home;
    HomeSucceeds(live, Relocated, "v1_archive");
    HomeMoves(live, Relocated, "v1_archive");
    home := Home(live, Relocated, "v1_archive").value;
    hide Relocated;
    assert home.extensions == cat.extensions;
  }

  /** An extension that was not in `public`, or is not listed, is moved for good, or dropped. */
  lemma StrayExtensionsAreLost(cat: Catalog, live: Catalog, e: string)
    requires CutOverFrom(cat, live) && "public" in cat.names
    requires e in cat.extensions && e != "plpgsql" && cat.extensions[e] != cat.names["public"]
    ensures Undo(live).Some? ==> Undo(live).value.extensions != cat.extensions
  {
    WhatCutoverLeft(cat, live);
    PublicIsTwoZero(cat, live);
    hide CutOverFrom;
    hide Swapped;
    hide Home;
    HomeSucceeds(live, Relocated, "v1_archive");
    HomeMoves(live, Relocated, "v1_archive");
    var home := Home(live, Relocated, "v1_archive").value;
    SwapLeaves(home);
    ExtensionsFall(home, cat.names["lbr2"]);
    hide Swap;
    hide Doomed;
    if e !in Relocated {
      assert Extension(e) in Doomed(home, cat.names["lbr2"]);
    }
    hide Relocated;
  }

  /**
   Rollback inverts cutover on everything 1.0 owned, whatever 2.0 wrote in between, exactly when
   all extensions were in `public` and no object outside the 2.0 schema uses a 2.0 one.
   */
  lemma UndoInvertsCutoverIff(cat: Catalog, live: Catalog)
    requires CutOverFrom(cat, live)
    ensures "lbr2" in cat.names
    ensures Undo(live) == Some(Lone(cat, "lbr2")) <==> ExtensionsHome(cat) && Untangled(live, cat.names["lbr2"])
  {
    WhatCutoverLeft(cat, live);
    if ExtensionsHome(cat) {
      UndoInvertsAtHome(cat, live);
    } else {
      var e :| e in cat.extensions && e != "plpgsql" && cat.extensions[e] != cat.names["public"];
      StrayExtensionsAreLost(cat, live, e);
    }
    hide CutOverFrom;
    hide Undo;
    hide Untangled;
  }

  lemma UndoInvertsAtHome(cat: Catalog, live: Catalog)
    requires CutOverFrom(cat, live) && ExtensionsHome(cat)
    ensures "lbr2" in cat.names
    ensures Undo(live) == Some(Lone(cat, "lbr2")) <==> Untangled(live, cat.names["lbr2"])
  {
    WhatCutoverLeft(cat, live);
    var home := ExtensionsGoHome(cat, live);
    NamesGoBack(cat.names);
    DropIsExactIff(home, "public");
    hide CutOverFrom;
    hide Home;
    hide DropCascade;
    hide Untangled;
    assert Untangled(live, cat.names["lbr2"]) <==> Untangled(home, cat.names["lbr2"]);
  }

  /** When the rollback commits, and what it commits. */
  lemma RollBackRestoresIff(cat: Catalog, live: Catalog)
    requires CutOverFrom(cat, live)
    ensures "lbr2" in cat.names
    ensures RollBack(live) == Some(Lone(cat, "lbr2"))
      <==> Shaped(live) && ExtensionsHome(cat) && Untangled(live, cat.names["lbr2"]) && Sound(Lone(cat, "lbr2"))
  {
    UndoInvertsCutoverIff(cat, live);
    hide Untangled;
    hide ExtensionsHome;
    hide Undo;
    hide Shaped;
    hide Sound;
    hide CutOverFrom;
  }

  /** The four checks do not notice it, but exactly the objects tied to a 2.0 object are lost. */
  lemma RollBackLosesExactly(cat: Catalog, live: Catalog, o: nat)
    requires CutOverFrom(cat, live) && ExtensionsHome(cat) && RollBack(live).Some?
    requires "lbr2" in cat.names && o in live.objects && live.objects[o].schema != cat.names["lbr2"]
    ensures o in RollBack(live).value.objects <==> !DependsOn(live, Object(o), ObjectsIn(live, cat.names["lbr2"]))
    ensures RollBack(live).value.extensions == cat.extensions
  {
    PublicIsTwoZero(cat, live);
    var home := ExtensionsGoHome(cat, live);
    RollBackSwaps(live, home);
    SwapLeaves(home);
    var v2 := cat.names["lbr2"];
    ExtensionsSurvive(home, "public");
    FallsByObjects(home, v2, Object(o));
    SameChains(home, live, Object(o), ObjectsIn(live, v2));
    hide *;
  }

  lemma FallsByObjects(cat: Catalog, sid: nat, t: Thing)
    requires ExtensionsIn(cat, sid) == {}
    ensures t in Doomed(cat, sid) <==> DependsOn(cat, t, ObjectsIn(cat, sid))
  {
    assert ObjectsIn(cat, sid) + ExtensionsIn(cat, sid) == ObjectsIn(cat, sid);
    CascadeIsReachability(cat, ObjectsIn(cat, sid), t);
  }

  /** What is left after the drop and the rename. */
  lemma SwapLeaves(cat: Catalog)
    requires "public" in cat.names && "v1_archive" in cat.names
    ensures Swap(cat).Some?
    ensures forall o ::
        o in Swap(cat).value.objects <==> o in cat.objects && Object(o) !in Doomed(cat, cat.names["public"])
    ensures forall e ::
        e in Swap(cat).value.extensions <==> e in cat.extensions && Extension(e) !in Doomed(cat, cat.names["public"])
    ensures forall o :: o in Swap(cat).value.objects ==> Swap(cat).value.objects[o] == cat.objects[o]
    ensures forall e :: e in Swap(cat).value.extensions ==> Swap(cat).value.extensions[e] == cat.extensions[e]
    ensures Swap(cat).value.extensions == DropCascade(cat, "public").value.extensions
    ensures "public" in Swap(cat).value.names && Swap(cat).value.names["public"] == cat.names["v1_archive"]
  {
    hide Doomed;
    assert "public" != "v1_archive";
  }

  lemma RollBackSwaps(live: Catalog, home: Catalog)
    requires Home(live, Relocated, "v1_archive") == Some(home)
    ensures RollBack(live).Some? <==> Shaped(live) && Swap(home).Some? && Sound(Swap(home).value)
    ensures RollBack(live).Some? ==> Swap(home) == RollBack(live)
  {
    hide Home;
    hide Sound;
    hide Shaped;
    hide Swap;
  }

  lemma SameChains(a: Catalog, b: Catalog, t: Thing, goal: set<Thing>)
    requires a.objects == b.objects
    ensures DependsOn(a, t, goal) <==> DependsOn(b, t, goal)
  {
    assert forall path :: IsChain(a, path) <==> IsChain(b, path);
  }

  /** A second rollback is refused, whatever else happens inside the schemas: the shape is gone. */
  lemma SecondRollBackIsRefused(cat: Catalog, sid: nat, objs: map<nat, Obj>)
    requires RollBack(cat).Some?
    ensures RollBack(Rewrite(RollBack(cat).value, sid, objs)) == None
  {
  }

  // ---------------------------------------------------------------- what the rollback lets through

  /** Index names ending in `trgm`, as the catalogue query's pattern has it. */
  lemma TrigramIff(kind: Kind)
    ensures IsTrigramIndex(kind) <==> exists rest: string :: kind == Index(rest + "trgm")
  {
    if IsTrigramIndex(kind) {
      var rest := kind.name[..|kind.name| - 4];
      assert kind.name == rest + "trgm";
    }
    if rest: string :| kind == Index(rest + "trgm") {
      assert (rest + "trgm")[|rest|..] == "trgm";
    }
  }

  lemma FourOfThem(cat: Catalog, sid: nat) returns (four: set<nat>)
    requires |TrigramIndexes(cat, sid)| >= 4
    ensures |four| == 4
    ensures forall o :: o in four ==> o in cat.objects && cat.objects[o].schema == sid
                                      && exists rest: string :: cat.objects[o].kind == Index(rest + "trgm")
  {
    four := TakeSome(TrigramIndexes(cat, sid), 4);
    forall o | o in four
      ensures o in cat.objects && cat.objects[o].schema == sid
      ensures exists rest: string :: cat.objects[o].kind == Index(rest + "trgm")
    {
      TrigramIff(cat.objects[o].kind);
    }
  }

  lemma {:induction false} TakeSome(s: set<nat>, n: nat) returns (r: set<nat>)
    requires n <= |s|
    ensures r <= s && |r| == n
    decreases n
  {
    if n == 0 {
      r := {};
    } else {
      var x :| x in s;
      var r' := TakeSome(s - {x}, n - 1);
      r := r' + {x};
    }
  }

  lemma FourAreEnough(cat: Catalog, sid: nat, four: set<nat>)
    requires |four| == 4
    requires forall o :: o in four ==> o in cat.objects && cat.objects[o].schema == sid
                                       && exists rest: string :: cat.objects[o].kind == Index(rest + "trgm")
    ensures |TrigramIndexes(cat, sid)| >= 4
  {
    forall o | o in four
      ensures o in TrigramIndexes(cat, sid)
    {
      TrigramIff(cat.objects[o].kind);
    }
    SubsetSize(four, TrigramIndexes(cat, sid));
  }

  /**
   The rollback commits what undoing gives, exactly when `public` has the 2.0 catalogue table, the
   archive the 1.0 one, and what undoing gives has, in `public`, the e-mail column of the
   members, four indexes named `…trgm`, and citext, and six extensions besides plpgsql.
   */
  lemma RollBackCommitsIff(cat: Catalog, r: Catalog)
    ensures RollBack(cat) == Some(r) <==>
      && Undo(cat) == Some(r)
      && "public" in cat.names && "v1_archive" in cat.names && "public" in r.names
      && (exists o :: o in cat.objects && cat.objects[o].schema == cat.names["public"]
                      && cat.objects[o].kind == Table("marc_records"))
      && (exists o :: o in cat.objects && cat.objects[o].schema == cat.names["v1_archive"]
                      && cat.objects[o].kind == Table("books"))
      && (exists o :: o in r.objects && r.objects[o].schema == r.names["public"]
                      && r.objects[o].kind == Column("members", "email"))
      && (exists four: set<nat> :: |four| == 4 && (forall o :: o in four ==>
            (o in r.objects && r.objects[o].schema == r.names["public"]
             && exists rest: string :: r.objects[o].kind == Index(rest + "trgm"))))
      && |r.extensions.Keys - {"plpgsql"}| == 6
      && "citext" in r.extensions && r.extensions["citext"] == r.names["public"]
  {
    hide TrigramIndexes;
    hide Undo;
    if "public" in r.names {
      var sid := r.names["public"];
      if |TrigramIndexes(r, sid)| >= 4 {
        var four := FourOfThem(r, sid);
      }
      if four: set<nat> :|
        |four| == 4 && (forall o :: o in four ==>
          (o in r.objects && r.objects[o].schema == sid
           && exists rest: string :: r.objects[o].kind == Index(rest + "trgm")))
      {
        FourAreEnough(r, sid, four);
      }
    }
  }

  /** What undoing does to the extensions: those in the 2.0 schema go with it, but the six are home. */
  lemma UndoneExtensions(cat: Catalog, r: Catalog)
    requires Undo(cat) == Some(r) && "public" in cat.names && "v1_archive" in cat.names
    requires cat.names["public"] != cat.names["v1_archive"]
    ensures forall e :: e in Relocated ==> e in r.extensions && r.extensions[e] == cat.names["v1_archive"]
    ensures "public" in r.names && r.names["public"] == cat.names["v1_archive"]
    ensures forall e :: e in r.extensions <==> e in cat.extensions && (e in Relocated || cat.extensions[e] != cat.names["public"])
  {
    hide Relocated;
    hide Swap;
    hide Doomed;
    HomeMoves(cat, Relocated, "v1_archive");
    var home := Home(cat, Relocated, "v1_archive").value;
    SwapLeaves(home);
    var sid := cat.names["public"];
    ExtensionsFall(home, sid);
    forall e | e in home.extensions && Extension(e) in Doomed(home, sid)
      ensures home.extensions[e] == sid
    {
      FallAddsObjectsTo(home, sid, e);
    }
  }

  lemma FallAddsObjectsTo(cat: Catalog, sid: nat, e: string)
    requires Extension(e) in Doomed(cat, sid)
    ensures e in cat.extensions && cat.extensions[e] == sid
  {
    FallAddsObjects(cat, ObjectsIn(cat, sid) + ExtensionsIn(cat, sid), Extension(e));
  }

  lemma SixNames()
    ensures |set e | e in Relocated| == 6
    ensures forall e :: e in Relocated <==> e in {"unaccent", "pg_trgm", "citext", "pgcrypto", "btree_gist", "btree_gin"}
  {
    NamesCounted(6);
    assert Relocated[..6] == Relocated;
    assert (set e | e in Relocated) == Names(Relocated);
  }

  function Names(es: seq<string>): set<string> {
    set e | e in es
  }

  lemma NamesDiffer(i: nat, j: nat)
    requires i < j < 6
    ensures Relocated[i] != Relocated[j]
  {
    assert Relocated[0][0] == 'u' && Relocated[1][1] == 'g' && Relocated[2][0] == 'c' && Relocated[3][2] == 'c'
           && |Relocated[4]| == 10 && |Relocated[5]| == 9 && |Relocated[0]| == |Relocated[3]| == 8 && |Relocated[1]| == 7
           && |Relocated[2]| == 6;
    assert Relocated[3][0] == 'p';
  }

  lemma {:induction false} NamesCounted(n: nat)
    requires n <= 6
    ensures |Names(Relocated[..n])| == n
  {
    if n == 0 {
      assert Names(Relocated[..n]) == {};
    } else {
      NamesCounted(n - 1);
      forall i | 0 <= i < n - 1
        ensures Relocated[i] != Relocated[n - 1]
      {
        NamesDiffer(i, n - 1);
      }
      NamesGrow(Relocated, n);
    }
  }

  lemma NamesGrow(es: seq<string>, n: nat)
    requires 0 < n <= |es| && forall i :: 0 <= i < n - 1 ==> es[i] != es[n - 1]
    ensures |Names(es[..n])| == |Names(es[..n - 1])| + 1
  {
    assert es[..n] == es[..n - 1] + [es[n - 1]];
    assert forall i :: 0 <= i < n - 1 ==> es[..n - 1][i] == es[i];
    assert Names(es[..n]) == Names(es[..n - 1]) + {es[n - 1]};
  }

  /**
   Two of the four checks, decided before anything is dropped: citext always comes home, and the
   extensions are six exactly when every other one, besides plpgsql, is in the 2.0 schema.
   */
  lemma ExtensionChecksIff(cat: Catalog, r: Catalog)
    requires Undo(cat) == Some(r) && "public" in cat.names && "v1_archive" in cat.names
    requires cat.names["public"] != cat.names["v1_archive"]
    ensures "citext" in r.extensions && "public" in r.names && r.extensions["citext"] == r.names["public"]
    ensures |r.extensions.Keys - {"plpgsql"}| == 6 <==>
      forall e :: e in cat.extensions && cat.extensions[e] != cat.names["public"] ==> e in Relocated || e == "plpgsql"
  {
    hide Undo;
    UndoneExtensions(cat, r);
    assert Relocated[2] == "citext";
    PlpgsqlStays();
    var six := Names(Relocated);
    var rest := r.extensions.Keys - {"plpgsql"};
    assert |six| == 6 by { NamesCounted(6); assert Relocated[..6] == Relocated; }
    SixOrMore(six, Relocated, rest);
  }

  lemma SixOrMore(six: set<string>, es: seq<string>, rest: set<string>)
    requires six == Names(es) && |six| == 6 && forall e :: e in es ==> e in rest
    ensures |rest| == 6 <==> forall e :: e in rest ==> e in es
  {
    if |rest| == 6 {
      if e :| e in rest && e !in es {
        SubsetSize(six, rest - {e});
        assert false;
      }
    }
    if forall e :: e in rest ==> e in es {
      assert rest == six;
    }
  }

  // ---------------------------------------------------------------- histories of one database

  /** A cutover or a rollback is tried, somebody works inside a schema, or `lbr2` is provisioned. */
  datatype Event = CutsOver(copied: map<nat, Obj>) | RollsBack | Works(sid: nat, objs: map<nat, Obj>) | Provisions(sid: nat)

  /** A script that is refused, or fails, leaves the database as it was. */
  function After(cat: Catalog, e: Event): Catalog {
    match e
    case CutsOver(copied) => (match CutOver(cat, copied) case Some(r) => r case None => cat)
    case RollsBack => (match RollBack(cat) case Some(r) => r case None => cat)
    case Works(sid, objs) => Rewrite(cat, sid, objs)
    case Provisions(sid) => if "lbr2" in cat.names then cat else cat.(names := cat.names["lbr2" := sid])
  }

  function Replay(cat: Catalog, events: seq<Event>): Catalog
    decreases |events|
  {
    if events == [] then cat else After(Replay(cat, events[..|events| - 1]), events[|events| - 1])
  }

  /** Committed cutovers less committed rollbacks. */
  function Balance(cat: Catalog, events: seq<Event>): int
    decreases |events|
  {
    if events == [] then 0
    else
      var before, e := Replay(cat, events[..|events| - 1]), events[|events| - 1];
      Balance(cat, events[..|events| - 1])
      + if e.CutsOver? && CutOver(before, e.copied).Some? then 1
        else if e.RollsBack? && RollBack(before).Some? then -1
        else 0
  }

  /** Only a cutover makes the archive's name, and only a rollback takes it away. */
  lemma ArchiveComesAndGoes(cat: Catalog, e: Event)
    ensures e.CutsOver? && CutOver(cat, e.copied).Some? ==>
      "v1_archive" !in cat.names && "v1_archive" in After(cat, e).names
    ensures e.RollsBack? && RollBack(cat).Some? ==>
      "v1_archive" in cat.names && "v1_archive" !in After(cat, e).names
    ensures !(e.CutsOver? && CutOver(cat, e.copied).Some?) && !(e.RollsBack? && RollBack(cat).Some?) ==>
      ("v1_archive" in After(cat, e).names <==> "v1_archive" in cat.names)
  {
    assert "public" != "lbr2" && "v1_archive" != "public" && "v1_archive" != "lbr2";
    if e.CutsOver? && CutOver(cat, e.copied).Some? {
      PromoteLeaves(cat, e.copied);
      HomeMoves(Promote(cat, e.copied).value, Relocated, "public");
    }
    hide Promote;
    hide Home;
    hide Sound;
  }

  lemma {:induction false} CutoversAndRollbacksAlternate(cat: Catalog, events: seq<Event>)
    requires "v1_archive" !in cat.names
    ensures Balance(cat, events) == if "v1_archive" in Replay(cat, events).names then 1 else 0
    decreases |events|
  {
    if events != [] {
      CutoversAndRollbacksAlternate(cat, events[..|events| - 1]);
      ArchiveComesAndGoes(Replay(cat, events[..|events| - 1]), events[|events| - 1]);
      hide After;
      hide CutOver;
      hide RollBack;
    }
  }

  /**
   Over any history of a database that starts without an archive, a rollback is refused whenever
   no committed cutover is left to undo, and a cutover whenever one is.
   */
  lemma RollBackNeedsACutover(cat: Catalog, events: seq<Event>, copied: map<nat, Obj>)
    requires "v1_archive" !in cat.names
    ensures Balance(cat, events) == 0 || Balance(cat, events) == 1
    ensures Balance(cat, events) == 0 ==> RollBack(Replay(cat, events)) == None
    ensures Balance(cat, events) == 1 ==> CutOver(Replay(cat, events), copied) == None
  {
    CutoversAndRollbacksAlternate(cat, events);
    ArchiveComesAndGoes(Replay(cat, events), RollsBack);
    ArchiveComesAndGoes(Replay(cat, events), CutsOver(copied));
    hide CutOver;
    hide RollBack;
    hide Replay;
    hide Balance;
  }

  /**
   The plan of record's two statements, on a database nothing 2.0 is used from: every 1.0 object
   tied to an extension is lost, and every extension but plpgsql.
   */
  lemma RecipeLosesExtensionDependents(cat: Catalog, live: Catalog, o: nat)
    requires CutOverFrom(cat, live)
    requires "lbr2" in cat.names && Untangled(live, cat.names["lbr2"])
    requires o in live.objects && live.objects[o].schema != cat.names["lbr2"]
    ensures Swap(live).Some? && Swap(live).value.extensions.Keys <= {"plpgsql"}
    ensures o in Swap(live).value.objects
      <==> forall e :: e in live.extensions && e != "plpgsql" ==> !DependsOn(live, Object(o), {Extension(e)})
  {
    PublicIsTwoZero(cat, live);
    var v2 := cat.names["lbr2"];
    SwapLeaves(live);
    OnlyExtensionsCross(live, v2, o);
    ExtensionsFall(live, v2);
    OneExtensionAtATime(live, v2, Object(o));
    PlpgsqlIsElsewhere(cat, live);
    hide *;
  }

  lemma PlpgsqlIsElsewhere(cat: Catalog, live: Catalog)
    requires CutOverFrom(cat, live) && "lbr2" in cat.names
    ensures "plpgsql" in live.extensions ==> live.extensions["plpgsql"] != cat.names["lbr2"]
  {
    WhatCutoverLeft(cat, live);
  }

  lemma ExtensionsFall(cat: Catalog, sid: nat)
    ensures forall e :: e in cat.extensions && cat.extensions[e] == sid ==> Extension(e) in Doomed(cat, sid)
  {
    FallIsClosed(cat, ObjectsIn(cat, sid) + ExtensionsIn(cat, sid));
    assert forall e :: e in cat.extensions && cat.extensions[e] == sid ==> Extension(e) in ExtensionsIn(cat, sid);
  }

  lemma OneExtensionAtATime(cat: Catalog, sid: nat, t: Thing)
    ensures DependsOn(cat, t, ExtensionsIn(cat, sid))
      <==> exists e :: e in cat.extensions && cat.extensions[e] == sid && DependsOn(cat, t, {Extension(e)})
  {
    if DependsOn(cat, t, ExtensionsIn(cat, sid)) {
      var path :| IsChain(cat, path) && path[0] == t && path[|path| - 1] in ExtensionsIn(cat, sid);
      assert DependsOn(cat, t, {path[|path| - 1]});
    }
    if e :| e in cat.extensions && cat.extensions[e] == sid && DependsOn(cat, t, {Extension(e)}) {
      var path :| IsChain(cat, path) && path[0] == t && path[|path| - 1] in {Extension(e)};
      assert path[|path| - 1] in ExtensionsIn(cat, sid);
    }
  }

  // ---------------------------------------------------------------- the sessions that run them

  datatype Mode = DryRun | ToClone | ToOriginal

  /** Where the connection is lost; the server may or may not have applied a lost COMMIT. */
  datatype Loss = Nowhere | BeforeRename | BeforeCopy | BeforePromotion | BeforeMove(n: nat) | AtCommit(applied: bool)

  predicate Interrupts(lost: Loss) {
    match lost
    case Nowhere => false
    case AtCommit(_) => false
    case BeforeMove(n) => n < |Relocated|
    case _ => true
  }

  class Database {
    var committed: Catalog
    var current: Catalog
    var inTransaction: bool

    ghost predicate Idle()
      reads this
    {
      !inTransaction && current == committed
    }

    constructor (cat: Catalog)
      ensures Idle() && committed == cat
    {
      committed, current, inTransaction := cat, cat, false;
    }

    method Begin()
      requires Idle()
      modifies this
      ensures inTransaction && current == committed == old(committed)
    {
      inTransaction := true;
    }

    method Commit()
      requires inTransaction
      modifies this
      ensures Idle() && committed == old(current)
    {
      committed, inTransaction := current, false;
    }

    method Rollback()
      requires inTransaction
      modifies this
      ensures Idle() && committed == old(committed)
    {
      current, inTransaction := committed, false;
    }

    method RenameSchema(a: string, b: string) returns (ok: bool)
      modifies this`current
      ensures ok == Rename(old(current), a, b).Some?
      ensures current == if ok then Rename(old(current), a, b).value else old(current)
    {
      var r := Rename(current, a, b);
      ok := r.Some?;
      if ok {
        current := r.value;
      }
    }

    method DropSchema(s: string) returns (ok: bool)
      modifies this`current
      ensures ok == DropCascade(old(current), s).Some?
      ensures current == if ok then DropCascade(old(current), s).value else old(current)
    {
      ok := s in current.names;
      if ok {
        current := DropCascade(current, s).value;
      }
    }

    /** Moves them one by one; the connection may be lost before move `lost`. */
    method MoveExtensions(es: seq<string>, s: string, lost: Option<nat>) returns (ok: bool)
      modifies this`current
      ensures ok <==> Home(old(current), es, s).Some? && (lost.None? || lost.value >= |es|)
      ensures ok ==> Some(current) == Home(old(current), es, s)
    {
      var i := 0;
      while i < |es|
        invariant 0 <= i <= |es|
        invariant lost.Some? ==> i <= lost.value
        invariant Home(old(current), es, s) == Home(current, es[i..], s)
      {
        if lost == Some(i) {
          return false;
        }
        var moved := SetSchema(current, es[i], s);
        assert es[i..][1..] == es[i + 1..];
        if moved.None? {
          return false;
        }
        current := moved.value;
        i := i + 1;
      }
      ok := true;
    }

    /**
     The cutover. `preflight`, `verified` and `promoted` are the verdicts of the checks made in
     SQL; a clone commits like the original.
     */
    method CutOverTenant(mode: Mode, preflight: bool, copied: map<nat, Obj>, verified: bool, promoted: bool, lost: Loss)
      returns (done: bool)
      requires Idle()
      modifies this
      ensures Idle()
      ensures done <==> preflight && verified && promoted && CutOver(old(committed), copied).Some?
                        && !Interrupts(lost) && (mode.DryRun? || !lost.AtCommit?)
      ensures committed ==
        if preflight && verified && promoted && CutOver(old(committed), copied).Some?
           && !Interrupts(lost) && !mode.DryRun? && lost != AtCommit(false)
        then CutOver(old(committed), copied).value else old(committed)
    {
      hide Home;
      hide Rename;
      hide Rewrite;
      hide ExtensionsHome;
      if !preflight {
        return false;
      }
      Begin();
      var ok := false;
      if lost != BeforeRename {
        ok := RenameSchema("public", "v1_archive");
      }
      if ok {
        ok := lost != BeforeCopy && "lbr2" in current.names;
      }
      if ok {
        current := Rewrite(current, current.names["lbr2"], copied);
        ok := verified && lost != BeforePromotion;
      }
      if ok {
        ok := RenameSchema("lbr2", "public");
      }
      assert ok ==> Some(current) == Promote(old(committed), copied);
      hide Promote;
      if ok {
        ok := MoveExtensions(Relocated, "public", if lost.BeforeMove? then Some(lost.n) else None);
      }
      if ok {
        ok := promoted && ExtensionsHome(current);
      }
      if ok && !mode.DryRun? && lost != AtCommit(false) {
        Commit();
        done := !lost.AtCommit?;
      } else {
        Rollback();
        done := ok && mode.DryRun?;
      }
    }

    /** The rollback; `confirmed` is its flag. */
    method RollBackTenant(confirmed: bool, lost: Loss) returns (done: bool)
      requires Idle()
      modifies this
      ensures Idle()
      ensures done <==> confirmed && RollBack(old(committed)).Some? && !Interrupts(lost) && !lost.AtCommit?
      ensures committed ==
        if confirmed && RollBack(old(committed)).Some? && !Interrupts(lost) && lost != AtCommit(false)
        then RollBack(old(committed)).value else old(committed)
      ensures "v1_archive" !in old(committed).names ==> !done && committed == old(committed)
      ensures done ==> "public" in committed.names
      ensures done ==>
        (exists o :: o in committed.objects && committed.objects[o].schema == committed.names["public"]
                        && committed.objects[o].kind == Column("members", "email"))
      ensures done ==>
        (exists four: set<nat> :: |four| == 4 && (forall o :: o in four ==>
              (o in committed.objects && committed.objects[o].schema == committed.names["public"]
               && exists rest: string :: committed.objects[o].kind == Index(rest + "trgm"))))
      ensures done ==> |committed.extensions.Keys - {"plpgsql"}| == 6
      ensures done ==> "citext" in committed.extensions && committed.extensions["citext"] == committed.names["public"]
    {
      hide Home;
      hide DropCascade;
      hide Rename;
      hide Sound;
      hide Shaped;
      ArchiveComesAndGoes(committed, RollsBack);
      if RollBack(committed).Some? {
        RollBackCommitsIff(committed, RollBack(committed).value);
      }
      if !confirmed || !Shaped(committed) {
        return false;
      }
      Begin();
      var ok := MoveExtensions(Relocated, "v1_archive", if lost.BeforeMove? then Some(lost.n) else None);
      if ok {
        ok := lost != BeforeCopy;
      }
      if ok {
        ok := DropSchema("public");
      }
      if ok {
        ok := lost != BeforeRename && lost != BeforePromotion;
      }
      if ok {
        ok := RenameSchema("v1_archive", "public");
      }
      if ok {
        ok := Sound(current);
      }
      if ok && lost != AtCommit(false) {
        Commit();
        done := !lost.AtCommit?;
      } else {
        Rollback();
        done := false;
      }
    }
  }
}
