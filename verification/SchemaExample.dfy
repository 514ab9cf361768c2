/**
 A small library on both sides of the rollback's promise: nothing of it is lost as it is, and one
 object is lost without any of the four checks noticing when that object used a 2.0 table.
 */
module SchemaExample {
  import opened Basics
  import opened SchemaCutover

  const Records := Obj(2, Table("marc_records"), {})

  /** The 1.0 objects: two tables, the e-mail column, and the four search indexes. */
  function OneZero(o: nat): Obj {
    match o
    case 10 => Obj(1, Table("books"), {})
    case 11 => Obj(1, Table("members"), {})
    case 12 => Obj(1, Column("members", "email"), {Object(11), Extension("citext")})
    case 13 => Obj(1, Index("books_search_trgm"), {Object(10), Extension("pg_trgm")})
    case 14 => Obj(1, Index("members_search_trgm"), {Object(11), Extension("pg_trgm")})
    case 15 => Obj(1, Index("authors_sortname_trgm"), {Object(10), Extension("pg_trgm")})
    case 16 => Obj(1, Index("collection_records_search_trgm"), {Object(10), Extension("pg_trgm")})
    case _ => Obj(1, Other, {})
  }

  function Tied(obj: Obj): Obj {
    obj.(uses := obj.uses + {Object(20)})
  }

  /** Schema 1 is 1.0, schema 2 is 2.0, schema 9 is Postgres's own; the objects in `tied` also use the 2.0 table. */
  function Library(tied: set<nat>): Catalog {
    Catalog(
      map["public" := 1, "lbr2" := 2],
      map o | o in {10, 11, 12, 13, 14, 15, 16, 17, 20} ::
        if o == 20 then Records else if o in tied then Tied(OneZero(o)) else OneZero(o),
      map["unaccent" := 1, "pg_trgm" := 1, "citext" := 1, "pgcrypto" := 1, "btree_gist" := 1, "btree_gin" := 1,
          "plpgsql" := 9])
  }

  function Copied(): map<nat, Obj> {
    map[20 := Records]
  }

  lemma LibraryIsLegal(tied: set<nat>)
    ensures Legal(Library(tied)) && ExtensionsHome(Library(tied))
  {
    PlpgsqlStays();
    assert "public" != "lbr2";
  }

  lemma LibraryCutsOver(tied: set<nat>)
    ensures CutOver(Library(tied), Copied()).Some?
  {
    var cat := Library(tied);
    assert "public" != "lbr2" && "v1_archive" != "public" && "v1_archive" != "lbr2";
    assert cat.names["lbr2"] == 2;
    var promoted := Promote(cat, Copied()).value;
    HomeSucceeds(promoted, Relocated, "public");
    HomeMoves(promoted, Relocated, "public");
    hide Home;
  }

  lemma WorkKeepsLibrary(tied: set<nat>)
    ensures Rewrite(Library(tied), 2, Copied()).objects == Library(tied).objects
  {
    hide Library;
    hide Rewrite;
    forall o
      ensures o == 20 <==> o in Library(tied).objects && Library(tied).objects[o].schema == 2
    {
      LibraryObjects(tied, o);
    }
    LibraryObjects(tied, 20);
    IdleWork(Library(tied), 2, Copied());
  }

  lemma LibraryNames(tied: set<nat>)
    ensures var names := Library(tied).names;
      "lbr2" in names && names["lbr2"] == 2 && "public" in names && names["public"] == 1 && "public" != "lbr2"
  {
    assert "public" != "lbr2";
  }

  lemma LibraryObjects(tied: set<nat>, o: nat)
    ensures o in Library(tied).objects <==> 10 <= o <= 17 || o == 20
    ensures 10 <= o <= 17 ==>
      && Library(tied).objects[o].schema == 1 && Library(tied).objects[o].kind == OneZero(o).kind
      && Library(tied).objects[o].uses == OneZero(o).uses + if o in tied then {Object(20)} else {}
    ensures o == 20 ==> Library(tied).objects[o] == Records
  {
  }

  lemma LibraryExtensions(tied: set<nat>)
    ensures forall e :: e in Library(tied).extensions <==> e in Relocated || e == "plpgsql"
    ensures forall e :: e in Relocated ==> Library(tied).extensions[e] == 1
    ensures Library(tied).extensions["plpgsql"] == 9
    ensures Library(tied).extensions.Keys == Names(Relocated) + {"plpgsql"}
  {
    hide Relocated;
    SixNames();
    PlpgsqlStays();
    assert forall e :: e in Library(tied).extensions <==> e in Relocated || e == "plpgsql";
  }

  lemma HasTheShape(tied: set<nat>, live: Catalog)
    requires live.objects == Library(tied).objects
    requires "public" in live.names && live.names["public"] == 2
    requires "v1_archive" in live.names && live.names["v1_archive"] == 1
    ensures Shaped(live)
  {
    LibraryObjects(tied, 10);
    LibraryObjects(tied, 20);
    hide Library;
    assert live.objects[20].kind == Table("marc_records") && live.objects[10].kind == Table("books");
  }

  lemma SwappedNames(names: map<string, nat>)
    requires "public" in names && "lbr2" in names
    ensures var r := Swapped(names);
      "public" in r && r["public"] == names["lbr2"] && "v1_archive" in r && r["v1_archive"] == names["public"]
  {
    assert "public" != "v1_archive";
  }

  lemma AfterCutover(tied: set<nat>) returns (live: Catalog)
    ensures CutOverFrom(Library(tied), live) && live.objects == Library(tied).objects && Shaped(live)
    ensures "public" in live.names && live.names["public"] == 2
    ensures "v1_archive" in live.names && live.names["v1_archive"] == 1
  {
    var cat := Library(tied);
    LibraryIsLegal(tied);
    LibraryCutsOver(tied);
    LibraryNames(tied);
    WorkKeepsLibrary(tied);
    hide Library;
    hide CutOver;
    hide Shaped;
    hide Swapped;
    live := Rewrite(CutOver(cat, Copied()).value, 2, Copied());
    CutoverLeaves(cat, Copied());
    assert live.objects == Rewrite(Rewrite(cat, 2, Copied()), 2, Copied()).objects == Rewrite(cat, 2, Copied()).objects;
    assert CutOverFrom(cat, live);
    WhatCutoverLeft(cat, live);
    SwappedNames(cat.names);
    HasTheShape(tied, live);
  }

  // ---------------------------------------------------------------- the checks of the rollback

  lemma EndsInTrgm(rest: string)
    ensures IsTrigramIndex(Index(rest + "trgm"))
  {
  }

  lemma TrigramIndexesAre(o: nat)
    ensures IsTrigramIndex(OneZero(o).kind) <==> 13 <= o <= 16
  {
    EndsInTrgm("books_search_");
    EndsInTrgm("members_search_");
    EndsInTrgm("authors_sortname_");
    EndsInTrgm("collection_records_search_");
    assert "books_search_trgm" == "books_search_" + "trgm";
    assert "members_search_trgm" == "members_search_" + "trgm";
    assert "authors_sortname_trgm" == "authors_sortname_" + "trgm";
    assert "collection_records_search_trgm" == "collection_records_search_" + "trgm";
  }

  /** Some of the library's objects, with its extensions, under the 1.0 names. */
  ghost predicate Remains(tied: set<nat>, after: Catalog) {
    && "public" in after.names && after.names["public"] == 1
    && after.extensions == Library(tied).extensions
    && (forall o :: o in after.objects ==> o in Library(tied).objects && after.objects[o] == Library(tied).objects[o])
  }

  lemma TrigramsOf(tied: set<nat>, after: Catalog)
    requires Remains(tied, after)
    ensures TrigramIndexes(after, 1) == set o | o in {13, 14, 15, 16} && o in after.objects.Keys
  {
    hide Library;
    hide IsTrigramIndex;
    forall o: nat
      ensures o in TrigramIndexes(after, 1) <==> 13 <= o <= 16 && o in after.objects
    {
      LibraryObjects(tied, o);
      TrigramIndexesAre(o);
    }
  }

  /** The four checks ask for objects 12 to 16, and for nothing else. */
  lemma ChecksAre(tied: set<nat>, after: Catalog)
    requires Remains(tied, after)
    ensures Sound(after) <==> 12 in after.objects && 13 in after.objects && 14 in after.objects
                              && 15 in after.objects && 16 in after.objects
  {
    hide Library;
    hide OneZero;
    hide TrigramIndexes;
    TrigramsOf(tied, after);
    EmailIs(tied, after);
    ExtensionsAre(tied, after);
    FourFound(after.objects.Keys);
  }

  lemma FourFound(keys: set<nat>)
    ensures |set o | o in {13, 14, 15, 16} && o in keys| >= 4
      <==> 13 in keys && 14 in keys && 15 in keys && 16 in keys
  {
    var four := {13, 14, 15, 16};
    var found := set o | o in {13, 14, 15, 16} && o in keys;
    if found == four {
      assert 13 in found && 14 in found && 15 in found && 16 in found;
    } else {
      var lost :| lost in four && lost !in found;
      SubsetSize(found, four - {lost});
    }
  }

  lemma EmailIs(tied: set<nat>, after: Catalog)
    requires Remains(tied, after)
    ensures 12 in after.objects <==>
      exists o :: o in after.objects && after.objects[o].schema == 1 && after.objects[o].kind == Column("members", "email")
  {
    LibraryObjects(tied, 12);
    if o :| o in after.objects && after.objects[o].kind == Column("members", "email") {
      LibraryObjects(tied, o);
    }
  }

  lemma SixAreListed()
    ensures |Relocated| == 6 && "citext" in Relocated
  {
    assert Relocated[2] == "citext";
  }

  lemma ExtensionsAre(tied: set<nat>, after: Catalog)
    requires Remains(tied, after)
    ensures |after.extensions.Keys - {"plpgsql"}| == |Relocated|
    ensures "citext" in after.extensions && after.extensions["citext"] == 1
  {
    hide Library;
    hide Relocated;
    LibraryExtensions(tied);
    SixNames();
    SixAreListed();
    PlpgsqlStays();
    assert after.extensions.Keys - {"plpgsql"} == Names(Relocated);
  }

  // ---------------------------------------------------------------- what falls with the 2.0 schema

  lemma TwoZeroFalls(tied: set<nat>, home: Catalog)
    requires home.objects == Library(tied).objects && ExtensionsIn(home, 2) == {}
    ensures ObjectsIn(home, 2) + ExtensionsIn(home, 2) == {Object(20)}
    ensures Object(20) in Doomed(home, 2) && Closed(home, Doomed(home, 2))
  {
    forall o | o in home.objects
      ensures home.objects[o].schema == 2 <==> o == 20
    {
      LibraryObjects(tied, o);
    }
    LibraryObjects(tied, 20);
    hide Library;
    assert ObjectsIn(home, 2) == {Object(20)};
    FallIsClosed(home, {Object(20)});
  }

  lemma UserFalls(cat: Catalog, sid: nat, o: nat, t: Thing)
    requires Closed(cat, Doomed(cat, sid)) && t in Doomed(cat, sid) && o in cat.objects && t in cat.objects[o].uses
    ensures Object(o) in Doomed(cat, sid)
  {
    hide Doomed;
    assert t in cat.objects[o].uses * Doomed(cat, sid);
    assert Uses(cat, o, Doomed(cat, sid));
  }

  lemma OneZeroLooksInside(o: nat)
    ensures Object(17) !in OneZero(o).uses && Object(20) !in OneZero(o).uses
  {
  }

  lemma DoomedWithin(home: Catalog, bound: set<Thing>)
    requires ObjectsIn(home, 2) + ExtensionsIn(home, 2) == {Object(20)} && Object(20) in bound && Closed(home, bound)
    ensures Doomed(home, 2) <= bound
  {
    FallStaysWithin(home, {Object(20)}, bound);
  }

  /** When only object 17 may use the 2.0 table, nothing but it and the table falls. */
  lemma OnlyTheUncheckedFalls(tied: set<nat>, home: Catalog)
    requires home.objects == Library(tied).objects && ExtensionsIn(home, 2) == {}
    requires forall o :: o in tied ==> !(10 <= o <= 16)
    ensures Doomed(home, 2) <= {Object(17), Object(20)}
    ensures Object(17) in Doomed(home, 2) <==> 17 in tied
  {
    hide Library;
    hide Doomed;
    hide OneZero;
    TwoZeroFalls(tied, home);
    LibraryObjects(tied, 17);
    LibraryObjects(tied, 20);
    var bound := {Object(20)} + if 17 in tied then {Object(17)} else {};
    forall o | Uses(home, o, bound)
      ensures Object(o) in bound
    {
      LibraryObjects(tied, o);
      OneZeroLooksInside(o);
    }
    DoomedWithin(home, bound);
    if 17 in tied {
      UserFalls(home, 2, 17, Object(20));
    }
  }

  /** When an object the checks rest on uses the 2.0 table, one they look at falls. */
  lemma ACheckedOneFalls(tied: set<nat>, home: Catalog, o: nat) returns (lost: nat)
    requires home.objects == Library(tied).objects && ExtensionsIn(home, 2) == {}
    requires o in tied && 10 <= o <= 16
    ensures 12 <= lost <= 16 && Object(lost) in Doomed(home, 2)
  {
    TwoZeroFalls(tied, home);
    LibraryObjects(tied, o);
    LibraryObjects(tied, 12);
    LibraryObjects(tied, 13);
    hide Library;
    hide Doomed;
    UserFalls(home, 2, o, Object(20));
    lost := if o == 10 then 13 else if o == 11 then 12 else o;
    if o < 12 {
      UserFalls(home, 2, lost, Object(o));
    }
  }

  // ---------------------------------------------------------------- the library, cut over and rolled back

  lemma WhatIsLeft(tied: set<nat>, live: Catalog) returns (home: Catalog)
    requires CutOverFrom(Library(tied), live) && live.objects == Library(tied).objects && Shaped(live)
    requires "public" in live.names && live.names["public"] == 2
    requires "v1_archive" in live.names && live.names["v1_archive"] == 1
    ensures home.objects == Library(tied).objects && ExtensionsIn(home, 2) == {}
    ensures Swap(home).Some? && Remains(tied, Swap(home).value)
    ensures forall o :: o in Swap(home).value.objects <==> o in home.objects && Object(o) !in Doomed(home, 2)
    ensures RollBack(live).Some? <==> Sound(Swap(home).value)
    ensures Undo(live) == Swap(home) && (RollBack(live).Some? ==> RollBack(live) == Swap(home))
  {
    hide Home;
    hide Swap;
    hide Doomed;
    hide Sound;
    hide Shaped;
    hide CutOverFrom;
    hide Library;
    hide DropCascade;
    hide Relocated;
    LibraryIsLegal(tied);
    LibraryNames(tied);
    home := ExtensionsGoHome(Library(tied), live);
    RollBackSwaps(live, home);
    SwapLeaves(home);
    ExtensionsSurvive(home, "public");
    LibraryExtensions(tied);
  }

  /**
   The library is rolled back exactly when nothing its four checks rest on uses the 2.0 table: a
   lost e-mail column, or a single lost index, is refused.
   */
  lemma LibraryRollsBackIff(tied: set<nat>) returns (live: Catalog)
    ensures CutOverFrom(Library(tied), live) && Shaped(live) && Undo(live).Some?
    ensures RollBack(live).Some? <==> forall o :: o in tied ==> !(10 <= o <= 16)
    ensures RollBack(live).Some? ==> (17 in RollBack(live).value.objects <==> 17 !in tied)
  {
    hide *;
    live := AfterCutover(tied);
    var home := WhatIsLeft(tied, live);
    ChecksAre(tied, Swap(home).value);
    forall o
      ensures 12 <= o <= 17 ==> o in home.objects
    {
      LibraryObjects(tied, o);
    }
    if o :| o in tied && 10 <= o <= 16 {
      var lost := ACheckedOneFalls(tied, home, o);
    } else {
      OnlyTheUncheckedFalls(tied, home);
    }
  }

  lemma NothingLooksAcross(live: Catalog)
    requires live.objects == Library({}).objects
    ensures Untangled(live, 2)
  {
    hide Library;
    hide OneZero;
    forall o | o in live.objects
      ensures live.objects[o].schema == 2 <==> o == 20
    {
      LibraryObjects({}, o);
    }
    LibraryObjects({}, 20);
    assert ObjectsIn(live, 2) == {Object(20)};
    forall o | o in live.objects && live.objects[o].schema != 2
      ensures !Uses(live, o, {Object(20)})
    {
      LibraryObjects({}, o);
      OneZeroLooksInside(o);
    }
  }

  lemma OneZeroIsSound()
    ensures "lbr2" in Library({}).names && Sound(Lone(Library({}), "lbr2"))
  {
    hide Sound;
    hide OneZero;
    LibraryNames({});
    var lone := Lone(Library({}), "lbr2");
    assert Remains({}, lone);
    forall o
      ensures 10 <= o <= 17 ==> o in lone.objects
    {
      LibraryObjects({}, o);
    }
    ChecksAre({}, lone);
  }

  /** When nothing looks across, the library comes back whole. */
  lemma LibraryComesBack() returns (live: Catalog)
    ensures "lbr2" in Library({}).names && CutOverFrom(Library({}), live)
    ensures RollBack(live) == Some(Lone(Library({}), "lbr2"))
    ensures live.objects == Library({}).objects
    ensures "public" in live.names && live.names["public"] == 2
    ensures "v1_archive" in live.names && live.names["v1_archive"] == 1
  {
    hide *;
    live := AfterCutover({});
    LibraryIsLegal({});
    LibraryNames({});
    OneZeroIsSound();
    NothingLooksAcross(live);
    RollBackRestoresIff(Library({}), live);
  }

  /** When one 1.0 object uses a 2.0 table, it can be gone after a rollback that all checks let through. */
  lemma LossGoesUnnoticed() returns (live: Catalog)
    ensures CutOverFrom(Library({17}), live) && RollBack(live).Some?
    ensures 17 in Library({17}).objects && Library({17}).objects[17].schema == 1
    ensures 17 !in RollBack(live).value.objects
  {
    live := LibraryRollsBackIff({17});
    LibraryObjects({17}, 17);
  }

  lemma UndoGoesThrough(live: Catalog)
    requires "public" in live.names && "v1_archive" in live.names && forall e :: e in Relocated ==> e in live.extensions
    ensures Undo(live).Some?
  {
    hide Relocated;
    hide Home;
    hide Swap;
    HomeSucceeds(live, Relocated, "v1_archive");
    HomeMoves(live, Relocated, "v1_archive");
    SwapLeaves(Home(live, Relocated, "v1_archive").value);
  }

  lemma HstoreIsNotListed()
    ensures "hstore" !in Relocated && "hstore" != "plpgsql"
  {
    assert "hstore"[0] == 'h';
    assert forall e :: e in Relocated ==> e[0] != 'h';
  }

  /** With a seventh extension anywhere but in the 2.0 schema, the same library is refused. */
  lemma SeventhExtensionIsRefused(sid: nat) returns (live: Catalog)
    requires sid != 2
    ensures CutOverFrom(Library({}), live) && RollBack(live) == Some(Lone(Library({}), "lbr2"))
    ensures "hstore" !in live.extensions
    ensures var seventh := live.(extensions := live.extensions["hstore" := sid]);
      Shaped(seventh) && Undo(seventh).Some? && RollBack(seventh) == None
  {
    hide *;
    live := LibraryComesBack();
    LibraryExtensions({});
    HstoreIsNotListed();
    WhatCutoverLeft(Library({}), live);
    var seventh := live.(extensions := live.extensions["hstore" := sid]);
    HasTheShape({}, seventh);
    UndoGoesThrough(seventh);
    ExtensionChecksIff(seventh, Undo(seventh).value);
    if RollBack(seventh).Some? {
      RollBackCommitsIff(seventh, RollBack(seventh).value);
      assert false;
    }
  }
}
