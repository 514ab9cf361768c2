/**
 What the env-file reader and printer do, said on lines and values in the characters that make
 them: one law for every form a definition or a value can take.
 */
module EnvGrammar {
  import opened Basics
  import opened EnvFile

  // ---------------------------------------------------------------- characters

  /** White space, by code: the ASCII blanks, the no-break space, and the Unicode separators. */
  predicate White(s: string) {
    forall k :: 0 <= k < |s| ==>
      var c := s[k] as int;
      9 <= c <= 13 || c == 32 || c == 160 || c == 0x1680 || 0x2000 <= c <= 0x200A
      || c == 0x2028 || c == 0x2029 || c == 0x202F || c == 0x205F || c == 0x3000 || c == 0xFEFF
  }

  lemma SpaceIff(c: char)
    ensures IsSpace(c) <==> White([c])
  {
    var s := [c];
    assert White(s) ==> s[0] == c;
  }

  /** A letter, a digit, or one of `_ . : / @ % + = -`. */
  predicate BareCharacter(c: char) {
    'a' <= c <= 'z' || 'A' <= c <= 'Z' || '0' <= c <= '9'
    || c == '_' || c == '.' || c == ':' || c == '/' || c == '@' || c == '%' || c == '+' || c == '=' || c == '-'
  }

  predicate IsIdentifier(s: string) {
    && s != "" && ('a' <= s[0] <= 'z' || 'A' <= s[0] <= 'Z' || s[0] == '_')
    && forall k :: 0 <= k < |s| ==> 'a' <= s[k] <= 'z' || 'A' <= s[k] <= 'Z' || '0' <= s[k] <= '9' || s[k] == '_'
  }

  // ---------------------------------------------------------------- trimming

  lemma {:induction false} TrimStartWhite(a: string, s: string)
    requires White(a)
    ensures TrimStart(a + s) == TrimStart(s)
  {
    if a == "" {
      assert a + s == s;
    } else {
      SpaceIff(a[0]);
      assert White(a[1..]) && (a + s)[1..] == a[1..] + s;
      TrimStartWhite(a[1..], s);
    }
  }

  lemma {:induction false} TrimEndWhite(s: string, b: string)
    requires White(b)
    ensures TrimEnd(s + b) == TrimEnd(s)
  {
    if b == "" {
      assert s + b == s;
    } else {
      var n := |b| - 1;
      SpaceIff(b[n]);
      assert White(b[..n]) && (s + b)[..|s| + n] == s + b[..n] && (s + b)[|s| + n] == b[n];
      TrimEndWhite(s, b[..n]);
    }
  }

  lemma TrimWhite(a: string, s: string, b: string)
    requires White(a) && White(b)
    ensures Trim(a + s + b) == Trim(s)
  {
    TrimCommutes(a + s + b);
    TrimEndWhite(a + s, b);
    TrimCommutes(a + s);
    TrimStartWhite(a, s);
  }

  /** White space around a value is not part of it. */
  lemma SurroundingSpaceIsIgnored(a: string, rhs: string, b: string)
    requires White(a) && White(b)
    ensures ParseValue(a + rhs + b) == ParseValue(rhs)
  {
    TrimWhite(a, rhs, b);
    hide Trim;
    hide DropComment;
    hide Unescape;
  }

  // ---------------------------------------------------------------- values

  lemma QuotedIsNotTrimmed(q: char, v: string)
    requires q == '\'' || q == '"'
    ensures Trim([q] + v + [q]) == [q] + v + [q] && ([q] + v + [q])[1..|v| + 1] == v
  {
    var t := [q] + v + [q];
    assert !IsSpace(t[0]) && !IsSpace(t[|t| - 1]);
    TrimsNothing(t);
  }

  /** Between single quotes everything stands for itself. */
  lemma SingleQuotedIsVerbatim(v: string)
    ensures ParseValue("'" + v + "'") == v
  {
    QuotedIsNotTrimmed('\'', v);
    hide Trim;
    hide DropComment;
    hide Unescape;
  }

  /** Part of a double-quoted value: a character, an escaped one, or a backslash that escapes nothing. */
  datatype Piece = Raw(c: char) | Undone(c: char) | Stays(c: char)

  predicate Fits(p: Piece) {
    match p
    case Raw(c) => c != '\\'
    case Undone(c) => c == '"' || c == '\\' || c == '$' || c == '`'
    case Stays(c) => c != '"' && c != '\\' && c != '$' && c != '`'
  }

  function Written(ps: seq<Piece>): string {
    if ps == [] then ""
    else (match ps[0] case Raw(c) => [c] case Undone(c) => ['\\', c] case Stays(c) => ['\\', c]) + Written(ps[1..])
  }

  function Meant(ps: seq<Piece>): string {
    if ps == [] then ""
    else (match ps[0] case Raw(c) => [c] case Undone(c) => [c] case Stays(c) => ['\\', c]) + Meant(ps[1..])
  }

  lemma UnescapeOne(p: Piece, next: string)
    requires Fits(p)
    ensures Unescape((match p case Raw(c) => [c] case Undone(c) => ['\\', c] case Stays(c) => ['\\', c]) + next)
      == (match p case Raw(c) => [c] case Undone(c) => [c] case Stays(c) => ['\\', c]) + Unescape(next)
  {
    match p
    case Raw(c) =>
      assert ([c] + next)[1..] == next;
    case Undone(c) =>
      assert (['\\', c] + next)[2..] == next;
    case Stays(c) =>
      assert (['\\', c] + next)[1..] == [c] + next;
      assert ([c] + next)[1..] == next;
  }

  lemma UnescapeTail(tail: string)
    requires tail == "" || tail == "\\"
    ensures Unescape(tail) == tail
  {
    assert tail == "\\" ==> tail[1..] == "";
  }

  lemma {:induction false} UnescapeIs(ps: seq<Piece>, tail: string)
    requires (forall k :: 0 <= k < |ps| ==> Fits(ps[k])) && (tail == "" || tail == "\\")
    ensures Unescape(Written(ps) + tail) == Meant(ps) + tail
  {
    hide Unescape;
    if ps == [] {
      assert Written(ps) + tail == tail && Meant(ps) + tail == tail;
      UnescapeTail(tail);
    } else {
      var p, next := ps[0], Written(ps[1..]) + tail;
      assert Fits(p);
      UnescapeIs(ps[1..], tail);
      UnescapeOne(p, next);
      var w := match p case Raw(c) => [c] case Undone(c) => ['\\', c] case Stays(c) => ['\\', c];
      var m := match p case Raw(c) => [c] case Undone(c) => [c] case Stays(c) => ['\\', c];
      assert Written(ps) + tail == w + next;
      assert Meant(ps) + tail == m + (Meant(ps[1..]) + tail);
    }
  }

  /**
   Between double quotes a backslash before one of the four characters `"`, backslash, `$` and
   backtick is undone; any other one stays, also at the end.
   */
  lemma DoubleQuotedIsUndone(ps: seq<Piece>, tail: string)
    requires (forall k :: 0 <= k < |ps| ==> Fits(ps[k])) && (tail == "" || tail == "\\")
    ensures ParseValue("\"" + (Written(ps) + tail) + "\"") == Meant(ps) + tail
  {
    var body := Written(ps) + tail;
    QuotedIsNotTrimmed('"', body);
    UnescapeIs(ps, tail);
    hide Trim;
    hide DropComment;
    hide Unescape;
  }

  /** A value as a shell would have it between double quotes. */
  function Escaped(v: string): string {
    if v == "" then ""
    else (if v[0] == '"' || v[0] == '\\' || v[0] == '$' || v[0] == '`' then ['\\', v[0]] else [v[0]]) + Escaped(v[1..])
  }

  function PiecesOf(v: string): seq<Piece> {
    if v == "" then []
    else [if v[0] == '"' || v[0] == '\\' || v[0] == '$' || v[0] == '`' then Undone(v[0]) else Raw(v[0])] + PiecesOf(v[1..])
  }

  lemma {:induction false} PiecesSpell(v: string)
    ensures Written(PiecesOf(v)) == Escaped(v) && Meant(PiecesOf(v)) == v
    ensures forall k :: 0 <= k < |PiecesOf(v)| ==> Fits(PiecesOf(v)[k])
  {
    if v != "" {
      PiecesSpell(v[1..]);
      var p := PiecesOf(v);
      assert p[1..] == PiecesOf(v[1..]);
      assert forall k :: 0 < k < |p| ==> p[k] == PiecesOf(v[1..])[k - 1];
      assert Fits(p[0]);
    }
  }

  /** Every value, escaped and put between double quotes, is read back. */
  lemma EscapedIsReadBack(v: string)
    ensures ParseValue("\"" + Escaped(v) + "\"") == v
  {
    PiecesSpell(v);
    DoubleQuotedIsUndone(PiecesOf(v), "");
    assert Escaped(v) + "" == Escaped(v) && v + "" == v;
    hide ParseValue;
  }

  lemma {:induction false} TrimEndKeeps(a: string, s: string)
    requires TrimEnd(s) != ""
    ensures TrimEnd(a + s) == a + TrimEnd(s)
  {
    if IsSpace(s[|s| - 1]) {
      assert (a + s)[..|a + s| - 1] == a + s[..|s| - 1];
      TrimEndKeeps(a, s[..|s| - 1]);
    }
  }

  lemma {:induction false} DropAfter(v: string, rest: string)
    requires (forall k :: 0 <= k < |v| ==> !IsSpace(v[k])) && (rest == "" || CommentAt(rest))
    ensures DropComment(v + rest) == v
  {
    hide CommentAt;
    if v == "" {
      assert v + rest == rest;
    } else {
      assert (v + rest)[1..] == v[1..] + rest;
      NoSpaceNoComment(v + rest);
      DropAfter(v[1..], rest);
    }
  }

  lemma NoSpaceNoComment(s: string)
    requires s != "" && !IsSpace(s[0])
    ensures !CommentAt(s)
  {
  }

  lemma BareIsNoSpace(v: string)
    requires forall k :: 0 <= k < |v| ==> BareCharacter(v[k])
    ensures forall k :: 0 <= k < |v| ==> !IsSpace(v[k]) && v[k] != '\'' && v[k] != '"'
    ensures IsBareword(v)
  {
  }

  /** White space and `#` after a bare value begin a comment, up to the end of the line. */
  lemma TrailingCommentIsDropped(v: string, w: string, text: string)
    requires v != "" && (forall k :: 0 <= k < |v| ==> BareCharacter(v[k])) && White(w) && w != ""
    requires forall k :: 0 <= k < |text| ==>
      text[k] != '\n' && text[k] != '\r' && text[k] as int != 0x2028 && text[k] as int != 0x2029
    ensures ParseValue(v + (w + ("#" + text))) == v
  {
    BareIsNoSpace(v);
    var note := "#" + text;
    TrimEndKeepsHead(note);
    var kept := TrimEnd(note);
    TrimEndPrefix(note);
    TrimEndKeeps(v + w, note);
    var t := v + (w + kept);
    assert v + (w + note) == v + w + note && t == v + w + kept;
    assert TrimStart(v + (w + note)) == v + (w + note);
    assert Trim(v + (w + note)) == t;
    CommentStarts(w, kept);
    DropAfter(v, w + kept);
    TrimsNothing(v);
    assert t[0] == v[0];
    hide Trim;
    hide DropComment;
    hide CommentAt;
  }

  lemma {:induction false} TrimEndPrefix(s: string)
    ensures TrimEnd(s) <= s
  {
    if s != "" && IsSpace(s[|s| - 1]) {
      TrimEndPrefix(s[..|s| - 1]);
    }
  }

  lemma CommentStarts(w: string, note: string)
    requires White(w) && w != "" && note != "" && note[0] == '#'
    requires forall k :: 0 < k < |note| ==>
      note[k] != '\n' && note[k] != '\r' && note[k] as int != 0x2028 && note[k] as int != 0x2029
    ensures CommentAt(w + note)
  {
    TrimStartWhite(w, note);
    SpaceIff(w[0]);
    assert White([w[0]]);
    assert TrimStart(note) == note;
  }

  /** What can be written: exactly the values without control characters and single quotes. */
  lemma RefusedIff(key: string, value: string)
    ensures Serialize(key, value).None? <==> '\'' in value || exists k :: 0 <= k < |value| && (value[k] as int) < 32
  {
    assert IsBareword(value) ==> forall k :: 0 <= k < |value| ==> Bare(value[k]) && value[k] != '\'';
    forall c
      ensures Control(c) <==> (c as int) < 32
    {
    }
    if c :| c in value && Control(c) {
      var k :| 0 <= k < |value| && value[k] == c;
      assert (value[k] as int) < 32;
    }
    if k :| 0 <= k < |value| && (value[k] as int) < 32 {
      assert Control(value[k]) && value[k] in value;
    }
  }

  /** A bare value is written as it is, any other one between single quotes. */
  lemma WrittenAs(key: string, value: string)
    requires Serialize(key, value).Some?
    ensures Serialize(key, value).value ==
      if forall k :: 0 <= k < |value| ==> BareCharacter(value[k]) then key + "=" + value else key + "='" + value + "'"
  {
    forall c: char
      ensures Bare(c) <==> BareCharacter(c)
    {
    }
  }

  // ---------------------------------------------------------------- keys

  lemma {:induction false} NameLengthIs(name: string, rest: string)
    requires forall k :: 0 <= k < |name| ==> InName(name[k])
    requires rest == "" || !InName(rest[0])
    ensures NameLength(name + rest) == |name|
  {
    NameLengthOf(name, rest);
  }

  lemma IdentifierIsName(name: string)
    requires IsIdentifier(name)
    ensures StartsName(name[0]) && !IsSpace(name[0]) && forall k :: 0 <= k < |name| ==> InName(name[k])
  {
  }

  /** `name`, white space, `=`. */
  lemma NameIsRead(name: string, c: string, rhs: string)
    requires IsIdentifier(name) && White(c)
    ensures NameOf(name + (c + ("=" + rhs))) == Some(name)
  {
    var rest := c + ("=" + rhs);
    IdentifierIsName(name);
    if c != "" {
      SpaceIff(c[0]);
      assert White([c[0]]);
    }
    assert rest[0] == if c == "" then '=' else c[0];
    NameLengthIs(name, rest);
    TrimStartWhite(c, "=" + rhs);
    var s := name + rest;
    assert s[..|name|] == name && s[|name|..] == rest && s[0] == name[0];
    assert TrimStart("=" + rhs) == "=" + rhs;
    hide NameLength;
  }

  /** A definition, with white space wherever it may stand. */
  lemma PlainKeyIsRead(a: string, key: string, c: string, rhs: string)
    requires IsIdentifier(key) && White(a) && White(c)
    ensures KeyOf(a + (key + (c + ("=" + rhs)))) == Some(key)
  {
    var s := key + (c + ("=" + rhs));
    TrimStartWhite(a, s);
    IdentifierIsName(key);
    assert s[0] == key[0] && TrimStart(s) == s;
    NameIsRead(key, c, rhs);
    if "export" <= s && |s| > 6 && IsSpace(s[6]) {
      AfterExportWord(key, c, rhs);
    }
    hide TrimStart;
    hide NameOf;
  }

  /** A variable that is called `export` is no prefix: only `=` follows it. */
  lemma AfterExportWord(key: string, c: string, rhs: string)
    requires IsIdentifier(key) && White(c)
    requires var s := key + (c + ("=" + rhs)); "export" <= s && |s| > 6 && IsSpace(s[6])
    ensures var s := key + (c + ("=" + rhs)); NameOf(TrimStart(s[6..])) == None
  {
    var s := key + (c + ("=" + rhs));
    IdentifierIsName(key);
    assert forall k :: 0 <= k < 6 ==> s[k] == "export"[k];
    SixLetters(key, c, rhs);
    assert s[6..] == c + ("=" + rhs);
    TrimStartWhite(c, "=" + rhs);
    assert TrimStart("=" + rhs) == "=" + rhs;
    assert NameLength("=" + rhs) == 0;
  }

  lemma SixLetters(key: string, c: string, rhs: string)
    requires IsIdentifier(key) && White(c)
    requires var s := key + (c + ("=" + rhs)); "export" <= s && |s| > 6 && IsSpace(s[6])
    ensures |key| == 6
  {
    var s := key + (c + ("=" + rhs));
    IdentifierIsName(key);
    var rest := c + ("=" + rhs);
    if c != "" {
      SpaceIff(c[0]);
      assert White([c[0]]);
    }
    assert rest[0] == '=' || IsSpace(rest[0]);
    assert forall k :: 0 <= k < |key| ==> s[k] == key[k] && InName(s[k]);
    assert s[|key|] == rest[0] && !InName(s[|key|]);
    assert forall k :: 0 <= k < 6 ==> s[k] == "export"[k] && InName(s[k]);
  }

  /** The same after `export` and white space. */
  lemma ExportedKeyIsRead(a: string, b: string, key: string, c: string, rhs: string)
    requires IsIdentifier(key) && White(a) && White(b) && b != "" && White(c)
    ensures KeyOf(a + ("export" + (b + (key + (c + ("=" + rhs)))))) == Some(key)
  {
    var def := key + (c + ("=" + rhs));
    var s := "export" + (b + def);
    TrimStartWhite(a, s);
    assert s[0] == 'e' && TrimStart(s) == s;
    assert s[6..] == b + def && s[6] == b[0] && "export" <= s;
    SpaceIff(b[0]);
    assert White([b[0]]);
    TrimStartWhite(b, def);
    IdentifierIsName(key);
    assert def[0] == key[0] && TrimStart(def) == def;
    NameIsRead(key, c, rhs);
    hide TrimStart;
    hide NameOf;
  }

  lemma {:induction false} TrimStartSplit(s: string) returns (a: string)
    ensures s == a + TrimStart(s) && White(a)
  {
    if s != "" && IsSpace(s[0]) {
      var rest := TrimStartSplit(s[1..]);
      a := [s[0]] + rest;
      SpaceIff(s[0]);
      assert White([s[0]]);
      assert forall k :: 0 < k < |a| ==> a[k] == rest[k - 1];
      assert [s[0]][0] == s[0] == a[0];
    } else {
      a := "";
    }
  }

  lemma NameOfSplit(s: string) returns (c: string, rhs: string)
    requires NameOf(s).Some?
    ensures IsIdentifier(NameOf(s).value) && White(c) && s == NameOf(s).value + (c + ("=" + rhs))
  {
    NameLengthFits(s);
    var n := NameLength(s);
    c := TrimStartSplit(s[n..]);
    var def := TrimStart(s[n..]);
    rhs := def[1..];
    assert def == "=" + rhs;
    assert s == s[..n] + s[n..];
    assert forall k :: 0 <= k < n ==> s[..n][k] == s[k];
  }

  /** A definition: a name and `=`, with white space around the name. */
  ghost predicate Defines(raw: string, key: string) {
    exists a, c, rhs :: White(a) && White(c) && raw == a + (key + (c + ("=" + rhs)))
  }

  /** The same after `export` and white space. */
  ghost predicate Exports(raw: string, key: string) {
    exists a, b, c, rhs :: White(a) && White(b) && b != "" && White(c)
      && raw == a + ("export" + (b + (key + (c + ("=" + rhs)))))
  }

  /** Nothing else defines a key: a line has one exactly when it is such a definition. */
  lemma KeyIff(raw: string, key: string)
    ensures KeyOf(raw) == Some(key) ==> IsIdentifier(key) && (Defines(raw, key) || Exports(raw, key))
    ensures IsIdentifier(key) && (Defines(raw, key) || Exports(raw, key)) ==> KeyOf(raw) == Some(key)
  {
    if KeyOf(raw) == Some(key) {
      OnlyDefinitions(raw, key);
    }
    if IsIdentifier(key) && Defines(raw, key) {
      var a, c, rhs :| White(a) && White(c) && raw == a + (key + (c + ("=" + rhs)));
      PlainKeyIsRead(a, key, c, rhs);
    }
    if IsIdentifier(key) && Exports(raw, key) {
      var a, b, c, rhs :| White(a) && White(b) && b != "" && White(c)
        && raw == a + ("export" + (b + (key + (c + ("=" + rhs)))));
      ExportedKeyIsRead(a, b, key, c, rhs);
    }
    hide KeyOf;
  }

  lemma OnlyDefinitions(raw: string, key: string)
    requires KeyOf(raw) == Some(key)
    ensures IsIdentifier(key) && (Defines(raw, key) || Exports(raw, key))
  {
    var a := TrimStartSplit(raw);
    var s := TrimStart(raw);
    hide TrimStart;
    hide NameOf;
    if "export" <= s && |s| > 6 && IsSpace(s[6]) && NameOf(TrimStart(s[6..])).Some? {
      var b := TrimStartSplit(s[6..]);
      var c, rhs := NameOfSplit(TrimStart(s[6..]));
      assert s == "export" + s[6..];
      SpaceIff(s[6]);
      NotTrimmedAway(s[6..]);
      assert b != "";
      assert Exports(raw, key);
    } else {
      var c, rhs := NameOfSplit(s);
      assert Defines(raw, key);
    }
  }

  lemma NotTrimmedAway(s: string)
    requires s != "" && IsSpace(s[0])
    ensures TrimStart(s) != s
  {
    ShorterAfterTrim(s[1..]);
  }

  lemma {:induction false} ShorterAfterTrim(s: string)
    ensures |TrimStart(s)| <= |s|
  {
    if s != "" && IsSpace(s[0]) {
      ShorterAfterTrim(s[1..]);
    }
  }

  // ---------------------------------------------------------------- secrets

  /** What fills a missing key is the secret of the first generated variable of that name. */
  lemma {:induction false} SecretIsTheFirst(registry: seq<Def>, i: nat)
    requires i < |registry| && registry[i].generated
    requires forall j :: 0 <= j < i && registry[j].generated ==> registry[j].key != registry[i].key
    ensures SecretFor(registry, registry[i].key) == Some(registry[i].secret)
    decreases |registry|
  {
    var n := |registry| - 1;
    if i == n {
      NoSecretFor(registry[..n], registry[i].key);
    } else {
      SecretIsTheFirst(registry[..n], i);
    }
  }

  lemma {:induction false} NoSecretFor(registry: seq<Def>, key: string)
    requires forall j :: 0 <= j < |registry| && registry[j].generated ==> registry[j].key != key
    ensures SecretFor(registry, key) == None
    decreases |registry|
  {
    if registry != [] {
      NoSecretFor(registry[..|registry| - 1], key);
    }
  }

  // ---------------------------------------------------------------- one line of many

  lemma {:induction false} LastOf(before: seq<Line>, at: Line, after: seq<Line>, key: string)
    requires at.key == Some(key) && forall k :: 0 <= k < |after| ==> after[k].key != Some(key)
    ensures LastIndex(before + [at] + after, key) == |before|
  {
    var all := before + [at] + after;
    forall j | |before| < j < |all|
      ensures all[j].key != Some(key)
    {
      assert all[j] == after[j - |before| - 1];
    }
    LastIndexIs(all, key, |before|);
  }

  /** The last definition of a key is the one that is read. */
  lemma LastDefinitionIsRead(before: seq<Line>, k: string, rhs: string, after: seq<Line>, key: string)
    requires '=' !in k && forall i :: 0 <= i < |after| ==> after[i].key != Some(key)
    ensures Value(before + [Line(k + "=" + rhs, Some(key))] + after, key) == Some(ParseValue(rhs))
  {
    LastOf(before, Line(k + "=" + rhs, Some(key)), after, key);
    AfterFirstEquals(k, rhs);
    hide ParseValue;
  }

  /** A key without a definition has no value. */
  lemma UndefinedIsNone(lines: seq<Line>, key: string)
    requires forall i :: 0 <= i < |lines| ==> lines[i].key != Some(key)
    ensures Value(lines, key) == None
  {
    LastIndexIs(lines, key, -1);
  }

  /** Setting a key writes its last line, or one more at the end, and touches no other. */
  lemma OneLineIsWritten(before: seq<Line>, at: Line, after: seq<Line>, key: string, raw: string)
    requires forall i :: 0 <= i < |after| ==> after[i].key != Some(key)
    ensures at.key == Some(key) ==> Updated(before + [at] + after, key, raw) == before + [Line(raw, Some(key))] + after
    ensures Updated(after, key, raw) == after + [Line(raw, Some(key))]
  {
    LastIndexIs(after, key, -1);
    if at.key == Some(key) {
      LastOf(before, at, after, key);
      assert (before + [at] + after)[|before| := Line(raw, Some(key))] == before + [Line(raw, Some(key))] + after;
    }
  }
}
