/**
 The env-file store of scripts/secrets.ts: one `KEY=VALUE` a line, read last-wins, updated in
 place, and written back line for line.
 */
module EnvFile {
  import opened Basics

  datatype Line = Line(raw: string, key: Option<string>)

  // ---------------------------------------------------------------- characters

  /** What `\s` and `trim` take for white space. */
  predicate IsSpace(c: char) {
    c in {'\t', '\n', '\U{0B}', '\U{0C}', '\r', ' ', '\U{A0}', '\U{1680}', '\U{2028}', '\U{2029}',
          '\U{202F}', '\U{205F}', '\U{3000}', '\U{FEFF}'}
    || '\U{2000}' <= c <= '\U{200A}'
  }

  /** What `.` does not match. */
  predicate EndsLine(c: char) {
    c in {'\n', '\r', '\U{2028}', '\U{2029}'}
  }

  predicate StartsName(c: char) {
    'A' <= c <= 'Z' || 'a' <= c <= 'z' || c == '_'
  }

  predicate InName(c: char) {
    StartsName(c) || '0' <= c <= '9'
  }

  predicate IsName(s: string) {
    s != "" && StartsName(s[0]) && forall i :: 0 <= i < |s| ==> InName(s[i])
  }

  predicate Bare(c: char) {
    InName(c) || c in {'.', ':', '/', '@', '%', '+', '=', '-'}
  }

  predicate IsBareword(v: string) {
    forall i :: 0 <= i < |v| ==> Bare(v[i])
  }

  predicate Control(c: char) {
    c < ' '
  }

  // ---------------------------------------------------------------- values

  function TrimStart(s: string): string {
    if s != "" && IsSpace(s[0]) then TrimStart(s[1..]) else s
  }

  function TrimEnd(s: string): string {
    if s != "" && IsSpace(s[|s| - 1]) then TrimEnd(s[..|s| - 1]) else s
  }

  function Trim(s: string): string {
    TrimEnd(TrimStart(s))
  }

  /** A run of spaces, then `#` and the rest of one line. */
  predicate CommentAt(t: string) {
    && t != "" && IsSpace(t[0])
    && var rest := TrimStart(t);
       rest != "" && rest[0] == '#' && forall i :: 0 <= i < |rest| ==> !EndsLine(rest[i])
  }

  /** The first place where a comment can start ends the value. */
  function DropComment(t: string): string {
    if t == "" || CommentAt(t) then "" else [t[0]] + DropComment(t[1..])
  }

  predicate Escapable(c: char) {
    c in {'"', '\\', '$', '`'}
  }

  function Unescape(s: string): string {
    if |s| >= 2 && s[0] == '\\' && Escapable(s[1]) then [s[1]] + Unescape(s[2..])
    else if s == "" then ""
    else [s[0]] + Unescape(s[1..])
  }

  predicate Quoted(t: string, q: char) {
    |t| >= 2 && t[0] == q && t[|t| - 1] == q
  }

  function ParseValue(rhs: string): string {
    var t := Trim(rhs);
    if Quoted(t, '\'') then t[1..|t| - 1]
    else if Quoted(t, '"') then Unescape(t[1..|t| - 1])
    else Trim(DropComment(t))
  }

  function Serialize(key: string, value: string): Option<string> {
    if exists c :: c in value && Control(c) then None
    else if IsBareword(value) then Some(key + "=" + value)
    else if '\'' in value then None
    else Some(key + "='" + value + "'")
  }

  // ---------------------------------------------------------------- lines

  function NameLength(s: string): nat {
    if s != "" && InName(s[0]) then 1 + NameLength(s[1..]) else 0
  }

  lemma {:induction false} NameLengthFits(s: string)
    ensures NameLength(s) <= |s|
    ensures forall i :: 0 <= i < NameLength(s) ==> InName(s[i])
    ensures NameLength(s) < |s| ==> !InName(s[NameLength(s)])
  {
    if s != "" && InName(s[0]) {
      NameLengthFits(s[1..]);
    }
  }

  /** `NAME`, spaces, `=`. */
  function NameOf(s: string): Option<string> {
    NameLengthFits(s);
    var n := NameLength(s);
    if n > 0 && StartsName(s[0]) && TrimStart(s[n..]) != "" && TrimStart(s[n..])[0] == '=' then Some(s[..n]) else None
  }

  /** The key a line defines, with or without `export`. */
  function KeyOf(raw: string): Option<string> {
    var s := TrimStart(raw);
    if "export" <= s && |s| > 6 && IsSpace(s[6]) && NameOf(TrimStart(s[6..])).Some? then NameOf(TrimStart(s[6..]))
    else NameOf(s)
  }

  function AfterEquals(raw: string): string {
    if raw == "" then "" else if raw[0] == '=' then raw[1..] else AfterEquals(raw[1..])
  }

  /** The last line that defines the key, or -1. */
  function LastIndex(lines: seq<Line>, key: string): (r: int)
    ensures -1 <= r < |lines|
    ensures r >= 0 ==> lines[r].key == Some(key)
    ensures forall i :: r < i < |lines| ==> lines[i].key != Some(key)
  {
    if lines == [] then -1
    else if lines[|lines| - 1].key == Some(key) then |lines| - 1
    else LastIndex(lines[..|lines| - 1], key)
  }

  function Value(lines: seq<Line>, key: string): Option<string> {
    var i := LastIndex(lines, key);
    if i < 0 then None else Some(ParseValue(AfterEquals(lines[i].raw)))
  }

  function Updated(lines: seq<Line>, key: string, raw: string): seq<Line> {
    var i := LastIndex(lines, key);
    if i < 0 then lines + [Line(raw, Some(key))] else lines[i := Line(raw, Some(key))]
  }

  // ---------------------------------------------------------------- the file

  function Split(text: string): (r: seq<string>)
    ensures r != []
  {
    if text == "" then [""]
    else
      var rest := Split(text[1..]);
      if text[0] == '\n' then [""] + rest else [[text[0]] + rest[0]] + rest[1..]
  }

  function Join(parts: seq<string>): string {
    if parts == [] then ""
    else if |parts| == 1 then parts[0]
    else parts[0] + "\n" + Join(parts[1..])
  }

  function Parsed(parts: seq<string>): seq<Line> {
    seq(|parts|, i requires 0 <= i < |parts| => Line(parts[i], KeyOf(parts[i])))
  }

  function DropLastEmpty(parts: seq<string>): seq<string> {
    if parts != [] && parts[|parts| - 1] == "" then parts[..|parts| - 1] else parts
  }

  function Loaded(text: string): seq<Line> {
    Parsed(DropLastEmpty(Split(text)))
  }

  function Raws(lines: seq<Line>): seq<string> {
    seq(|lines|, i requires 0 <= i < |lines| => lines[i].raw)
  }

  function Saved(lines: seq<Line>): string {
    Join(Raws(lines)) + "\n"
  }

  /** What loading gives: no line holds a newline, and keys are what the text says. */
  ghost predicate Faithful(lines: seq<Line>) {
    forall i :: 0 <= i < |lines| ==> '\n' !in lines[i].raw && lines[i].key == KeyOf(lines[i].raw)
  }

  // ---------------------------------------------------------------- values come back

  lemma {:induction false} TrimsNothing(s: string)
    requires s != "" ==> !IsSpace(s[0]) && !IsSpace(s[|s| - 1])
    ensures Trim(s) == s
  {
  }

  lemma {:induction false} NoComment(v: string)
    requires forall i :: 0 <= i < |v| ==> !IsSpace(v[i])
    ensures DropComment(v) == v
  {
    if v != "" {
      NoComment(v[1..]);
    }
  }

  /** What the printer writes, the parser reads. */
  lemma SerializedParses(value: string)
    ensures IsBareword(value) ==> ParseValue(value) == value
    ensures '\'' !in value ==> ParseValue("'" + value + "'") == value
  {
    if IsBareword(value) {
      BarewordParses(value);
    }
    var quoted := "'" + value + "'";
    TrimsNothing(quoted);
    assert Quoted(quoted, '\'') && quoted[1..|quoted| - 1] == value;
    hide Trim;
    hide DropComment;
    hide Unescape;
  }

  lemma BarewordParses(value: string)
    requires IsBareword(value)
    ensures ParseValue(value) == value
  {
    assert forall i :: 0 <= i < |value| ==> Bare(value[i]) && !IsSpace(value[i]) && value[i] != '\'' && value[i] != '"';
    TrimsNothing(value);
    NoComment(value);
    hide Trim;
    hide DropComment;
    hide Unescape;
  }

  lemma {:induction false} AfterFirstEquals(key: string, rest: string)
    requires '=' !in key
    ensures AfterEquals(key + "=" + rest) == rest
  {
    var raw := key + "=" + rest;
    if key == "" {
      assert raw[1..] == rest;
    } else {
      AfterFirstEquals(key[1..], rest);
      assert raw[1..] == key[1..] + "=" + rest;
    }
  }

  lemma LineHoldsValue(key: string, value: string)
    requires '=' !in key && Serialize(key, value).Some?
    ensures ParseValue(AfterEquals(Serialize(key, value).value)) == value
  {
    SerializedParses(value);
    if IsBareword(value) {
      AfterFirstEquals(key, value);
    } else {
      AfterFirstEquals(key, "'" + value + "'");
      assert key + "='" + value + "'" == key + "=" + ("'" + value + "'");
    }
  }

  lemma LastIndexIs(lines: seq<Line>, key: string, i: int)
    requires -1 <= i < |lines| && (i >= 0 ==> lines[i].key == Some(key))
    requires forall j :: i < j < |lines| ==> lines[j].key != Some(key)
    ensures LastIndex(lines, key) == i
  {
  }

  /** Reading after writing gives the value back, and every other key reads as before. */
  lemma GetAfterSet(lines: seq<Line>, key: string, value: string, other: string)
    requires '=' !in key && Serialize(key, value).Some?
    ensures Value(Updated(lines, key, Serialize(key, value).value), key) == Some(value)
    ensures other != key ==> Value(Updated(lines, key, Serialize(key, value).value), other) == Value(lines, other)
  {
    var raw := Serialize(key, value).value;
    var after, i := Updated(lines, key, raw), LastIndex(lines, key);
    LineHoldsValue(key, value);
    LastIndexIs(after, key, if i < 0 then |lines| else i);
    if other != key {
      LastIndexIs(after, other, LastIndex(lines, other));
    }
  }

  /** A bareword ends before the first place where spaces and `#` can start a comment. */
  lemma {:induction false} CommentIsCutOff(t: string) returns (n: nat)
    ensures n <= |t| && DropComment(t) == t[..n]
    ensures n < |t| ==> CommentAt(t[n..])
    ensures forall m :: 0 <= m < n ==> !CommentAt(t[m..])
  {
    hide CommentAt;
    n := 0;
    assert t[0..] == t;
    if t != "" && !CommentAt(t) {
      var rest := CommentIsCutOff(t[1..]);
      n := rest + 1;
      assert t[n..] == t[1..][rest..];
      forall m | 0 <= m < n
        ensures !CommentAt(t[m..])
      {
        if m > 0 {
          assert t[m..] == t[1..][m - 1..];
        }
      }
    }
  }

  // ---------------------------------------------------------------- what a shell would read

  /**
   The reading promised at lines 531-535 of the source: an inline comment after white space is not
   part of the value, even when nothing else is.
   */
  function ShellValue(rhs: string): string {
    Trim(DropComment(TrimEnd(rhs)))
  }

  /** The two ends are trimmed in either order. */
  lemma {:induction false} TrimCommutes(s: string)
    ensures TrimEnd(TrimStart(s)) == TrimStart(TrimEnd(s))
  {
    if s != "" && IsSpace(s[0]) {
      TrimCommutes(s[1..]);
      TrimEndAfterSpace(s);
    } else if s != "" {
      TrimEndKeepsHead(s);
    }
  }

  lemma {:induction false} TrimEndKeepsHead(s: string)
    requires s != "" && !IsSpace(s[0])
    ensures TrimEnd(s) != "" && TrimEnd(s)[0] == s[0]
  {
    if IsSpace(s[|s| - 1]) {
      TrimEndKeepsHead(s[..|s| - 1]);
    }
  }

  lemma {:induction false} TrimEndAfterSpace(s: string)
    requires s != "" && IsSpace(s[0])
    ensures TrimEnd(s) == if TrimEnd(s[1..]) == "" then "" else [s[0]] + TrimEnd(s[1..])
  {
    if IsSpace(s[|s| - 1]) && |s| > 1 {
      assert s[1..][..|s| - 2] == s[..|s| - 1][1..];
      TrimEndAfterSpace(s[..|s| - 1]);
    } else if |s| > 1 {
      assert s == [s[0]] + s[1..];
    }
  }

  /** Dropping a comment keeps what comes before it, so trimming in front makes no other difference. */
  lemma {:induction false} DropAfterSpaces(s: string)
    requires !CommentAt(s)
    ensures TrimStart(DropComment(s)) == TrimStart(DropComment(TrimStart(s)))
  {
    if s != "" && IsSpace(s[0]) {
      var rest := s[1..];
      assert TrimStart(s) == TrimStart(rest);
      assert !CommentAt(rest);
      DropAfterSpaces(rest);
      assert ([s[0]] + DropComment(rest))[1..] == DropComment(rest);
    }
  }

  /**
   An unquoted value is read as a shell reads it exactly when it is not a comment with nothing
   before it.
   */
  lemma ReadsAsShellIff(rhs: string)
    requires !Quoted(Trim(rhs), '\'') && !Quoted(Trim(rhs), '"')
    ensures ParseValue(rhs) == ShellValue(rhs) <==> !CommentAt(TrimEnd(rhs))
  {
    var e := TrimEnd(rhs);
    TrimCommutes(rhs);
    assert Trim(rhs) == TrimStart(e);
    if CommentAt(e) {
      HashStays(TrimStart(e));
    } else {
      DropAfterSpaces(e);
    }
  }

  /** A value that begins with `#` keeps at least that. */
  lemma HashStays(t: string)
    requires t != "" && t[0] == '#'
    ensures Trim(DropComment(t)) != ""
  {
    assert DropComment(t)[0] == '#';
    assert TrimStart(DropComment(t)) == DropComment(t);
    TrimEndKeepsHead(DropComment(t));
  }

  /** An instance: the comment is the value. */
  lemma LoneCommentIsTheValue()
    ensures ParseValue(" # none") == "# none" && ShellValue(" # none") == ""
  {
    var t := "# none";
    assert TrimStart(" # none") == t;
    assert !IsSpace(t[0]) && !IsSpace(t[|t| - 1]);
    assert TrimEnd(t) == t && TrimStart(t) == t;
    assert DropComment(t) == t by {
      assert t[1..] == " none" && t[2..] == "none";
      NoComment("none");
      assert " none"[1..] == "none";
      assert TrimStart(" none") == "none";
    }
    assert TrimEnd(" # none") == " # none" && CommentAt(" # none");
  }

  // ---------------------------------------------------------------- the file comes back

  lemma {:induction false} SplitAfter(part: string, text: string)
    requires '\n' !in part
    ensures Split(part + "\n" + text) == [part] + Split(text)
  {
    var all := part + "\n" + text;
    if part == "" {
      assert all[1..] == text;
    } else {
      SplitAfter(part[1..], text);
      assert all[1..] == part[1..] + "\n" + text;
      var rest := [part[1..]] + Split(text);
      assert Split(all[1..]) == rest && rest[1..] == Split(text);
      assert all[0] == part[0] && all[0] != '\n';
      assert [all[0]] + rest[0] == part;
    }
  }

  lemma {:induction false} SplitSaved(parts: seq<string>)
    requires parts != [] && forall i :: 0 <= i < |parts| ==> '\n' !in parts[i]
    ensures Split(Join(parts) + "\n") == parts + [""]
  {
    var part, rest := parts[0], parts[1..];
    assert Split("") == [""];
    if |parts| == 1 {
      SplitAfter(part, "");
      assert part + "\n" + "" == Join(parts) + "\n";
    } else {
      SplitSaved(rest);
      SplitAfter(part, Join(rest) + "\n");
      assert Join(parts) + "\n" == part + "\n" + (Join(rest) + "\n");
      assert parts == [part] + rest;
    }
  }

  lemma {:induction false} JoinSplit(text: string)
    ensures Join(Split(text)) == text
    ensures forall i :: 0 <= i < |Split(text)| ==> '\n' !in Split(text)[i]
  {
    if text != "" {
      JoinSplit(text[1..]);
      var rest := Split(text[1..]);
      if text[0] == '\n' {
        assert ([""] + rest)[1..] == rest;
        assert text == "" + "\n" + text[1..];
      } else {
        JoinPrepend(text[0], rest);
        assert text == [text[0]] + text[1..];
      }
    }
  }

  lemma {:induction false} JoinSnoc(parts: seq<string>, part: string)
    ensures Join(parts + [part]) == if parts == [] then part else Join(parts) + "\n" + part
  {
    if parts != [] {
      JoinSnoc(parts[1..], part);
      assert (parts + [part])[1..] == parts[1..] + [part];
    }
  }

  lemma JoinPrepend(c: char, parts: seq<string>)
    requires parts != []
    ensures Join([[c] + parts[0]] + parts[1..]) == [c] + Join(parts)
  {
    var longer := [[c] + parts[0]] + parts[1..];
    assert longer[1..] == parts[1..];
  }

  lemma DropsTheLast(parts: seq<string>)
    ensures DropLastEmpty(parts + [""]) == parts
  {
    assert (parts + [""])[..|parts|] == parts;
  }

  lemma ParsedRaws(lines: seq<Line>)
    requires Faithful(lines)
    ensures Parsed(Raws(lines)) == lines
  {
    hide KeyOf;
  }

  lemma LoadOfNothingSaved()
    ensures Loaded(Saved([])) != []
  {
    assert Raws([]) == [];
    assert Saved([]) == "\n";
    SplitAfter("", "");
    assert "" + "\n" + "" == "\n";
    assert Split("\n") == ["", ""];
    hide KeyOf;
  }

  /** Loading what was saved gives every line back, exactly when there is one. */
  lemma LoadAfterSaveIff(lines: seq<Line>)
    requires Faithful(lines)
    ensures Loaded(Saved(lines)) == lines <==> lines != []
  {
    hide Split;
    hide Join;
    hide KeyOf;
    hide DropLastEmpty;
    hide Parsed;
    if lines != [] {
      assert forall i :: 0 <= i < |lines| ==> '\n' !in Raws(lines)[i];
      SplitSaved(Raws(lines));
      DropsTheLast(Raws(lines));
      ParsedRaws(lines);
    } else {
      LoadOfNothingSaved();
    }
  }

  /** Saving what was loaded gives the text back, with a newline at the end if it had none. */
  lemma SaveAfterLoad(text: string)
    ensures Faithful(Loaded(text))
    ensures Saved(Loaded(text)) == if text != "" && text[|text| - 1] == '\n' then text else text + "\n"
  {
    var parts := Split(text);
    JoinSplit(text);
    assert Raws(Loaded(text)) == DropLastEmpty(parts);
    if parts[|parts| - 1] == "" {
      JoinDropLast(parts);
    } else {
      JoinEnd(parts);
    }
  }

  lemma {:induction false} JoinDropLast(parts: seq<string>)
    requires parts != [] && parts[|parts| - 1] == ""
    ensures |parts| > 1 ==> Join(parts) == Join(parts[..|parts| - 1]) + "\n"
    ensures |parts| == 1 ==> Join(parts) == "" && parts[..|parts| - 1] == []
  {
    if |parts| > 2 {
      JoinDropLast(parts[1..]);
      assert parts[1..][..|parts| - 2] == parts[..|parts| - 1][1..];
    }
  }

  /** A last part with text ends the joined text. */
  lemma {:induction false} JoinEnd(parts: seq<string>)
    requires parts != [] && parts[|parts| - 1] != "" && '\n' !in parts[|parts| - 1]
    ensures Join(parts) != "" && Join(parts)[|Join(parts)| - 1] != '\n'
  {
    if |parts| > 1 {
      JoinEnd(parts[1..]);
    }
  }

  // ---------------------------------------------------------------- keys come back

  lemma {:induction false} NameLengthOf(name: string, rest: string)
    requires (forall i :: 0 <= i < |name| ==> InName(name[i])) && (rest == "" || !InName(rest[0]))
    ensures NameLength(name + rest) == |name|
  {
    if name != "" {
      assert (name + rest)[1..] == name[1..] + rest;
      NameLengthOf(name[1..], rest);
    } else {
      assert name + rest == rest;
    }
  }

  /** The line written for a name defines that name, even if it is `export`. */
  lemma KeyOfWritten(key: string, rhs: string)
    requires IsName(key)
    ensures KeyOf(key + "=" + rhs) == Some(key)
  {
    var raw := key + "=" + rhs;
    var rest := "=" + rhs;
    assert raw == key + rest;
    NameLengthOf(key, rest);
    assert raw[..|key|] == key && raw[|key|..] == rest;
    assert raw[0] == key[0] && !IsSpace(raw[0]);
    assert TrimStart(raw) == raw && TrimStart(rest) == rest;
    assert NameOf(raw) == Some(key);
  }

  lemma NameHasNoMarks(key: string)
    requires IsName(key)
    ensures '=' !in key && '\n' !in key
  {
    assert forall i :: 0 <= i < |key| ==> InName(key[i]);
  }

  /** The line written for a name is one line, and defines it. */
  lemma WrittenLine(key: string, value: string)
    requires IsName(key) && Serialize(key, value).Some?
    ensures '\n' !in Serialize(key, value).value && KeyOf(Serialize(key, value).value) == Some(key)
  {
    NameHasNoMarks(key);
    hide IsName;
    hide KeyOf;
    assert Control('\n');
    assert '\n' !in value;
    if IsBareword(value) {
      KeyOfWritten(key, value);
    } else {
      KeyOfWritten(key, "'" + value + "'");
      assert key + "='" + value + "'" == key + "=" + ("'" + value + "'");
    }
    hide IsBareword;
  }

  lemma SetKeepsFaithful(lines: seq<Line>, key: string, value: string)
    requires Faithful(lines) && IsName(key) && Serialize(key, value).Some?
    ensures '=' !in key && Faithful(Updated(lines, key, Serialize(key, value).value))
  {
    NameHasNoMarks(key);
    WrittenLine(key, value);
    hide Serialize;
    hide IsBareword;
    hide KeyOf;
    hide IsName;
  }

  /** Setting a key keeps the model loadable, and reading it back from the file gives the value. */
  lemma SetSurvivesTheFile(lines: seq<Line>, key: string, value: string, other: string)
    requires Faithful(lines) && IsName(key) && Serialize(key, value).Some?
    ensures var reloaded := Loaded(Saved(Updated(lines, key, Serialize(key, value).value)));
      && Value(reloaded, key) == Some(value)
      && (other != key ==> Value(reloaded, other) == Value(lines, other))
  {
    SetKeepsFaithful(lines, key, value);
    LoadAfterSaveIff(Updated(lines, key, Serialize(key, value).value));
    GetAfterSet(lines, key, value, other);
  }

  // ---------------------------------------------------------------- the store

  /** A variable of the registry; `secret` is what its generator gives, if it has one. */
  datatype Def = Def(key: string, generated: bool, secret: string)

  /** The characters of the three generators. */
  predicate Generated(c: char) {
    StartsName(c) || '0' <= c <= '9' || c in "!@#%^&*-_=+.?~"
  }

  predicate IsGenerated(v: string) {
    v != "" && forall i :: 0 <= i < |v| ==> Generated(v[i])
  }

  lemma GeneratedIsAccepted(key: string, v: string)
    requires IsGenerated(v)
    ensures Serialize(key, v).Some?
  {
    assert forall c :: c in v ==> Generated(c);
    assert forall c :: Generated(c) ==> !Control(c) && c != '\'';
  }

  predicate HasValue(v: Option<string>) {
    v.Some? && v.value != ""
  }

  /** What the registry would generate for a key: the first that does. */
  function SecretFor(registry: seq<Def>, key: string): Option<string> {
    if registry == [] then None
    else
      var first, last := SecretFor(registry[..|registry| - 1], key), registry[|registry| - 1];
      if first.Some? then first
      else if last.generated && last.key == key then Some(last.secret)
      else None
  }

  /** A value already there wins. */
  function Filled(v: Option<string>, secret: Option<string>): Option<string> {
    if HasValue(v) || secret.None? then v else secret
  }

  class EnvModel {
    var lines: seq<Line>

    constructor (text: Option<string>)
      ensures lines == if text.Some? then Loaded(text.value) else []
    {
      lines := if text.Some? then Loaded(text.value) else [];
    }

    method GetValue(key: string) returns (v: Option<string>)
      ensures v == Value(lines, key)
    {
      var i := |lines| - 1;
      while i >= 0
        invariant -1 <= i < |lines|
        invariant forall j :: i < j < |lines| ==> lines[j].key != Some(key)
      {
        if lines[i].key == Some(key) {
          LastIndexIs(lines, key, i);
          return Some(ParseValue(AfterEquals(lines[i].raw)));
        }
        i := i - 1;
      }
      v := None;
    }

    /** Refused values leave the model as it is. */
    method SetValue(key: string, value: string) returns (ok: bool)
      modifies this
      ensures ok == Serialize(key, value).Some?
      ensures lines == if ok then Updated(old(lines), key, Serialize(key, value).value) else old(lines)
    {
      var serialized := Serialize(key, value);
      if serialized.None? {
        return false;
      }
      var last, i := -1, |lines| - 1;
      while i >= 0
        invariant -1 <= i < |lines| && lines == old(lines) && last == -1
        invariant forall j :: i < j < |lines| ==> lines[j].key != Some(key)
      {
        if lines[i].key == Some(key) {
          last := i;
          break;
        }
        i := i - 1;
      }
      LastIndexIs(lines, key, last);
      if last >= 0 {
        lines := lines[last := Line(serialized.value, Some(key))];
      } else {
        lines := lines + [Line(serialized.value, Some(key))];
      }
      ok := true;
    }

    /** The lines joined by newlines, and one more: what is loaded from it is what was saved. */
    method Save() returns (body: string)
      ensures body == Saved(lines)
      ensures Faithful(lines) && lines != [] ==> Loaded(body) == lines
    {
      hide Loaded;
      hide Faithful;
      body := "";
      for i := 0 to |lines|
        invariant body == Join(Raws(lines[..i]))
      {
        JoinSnoc(Raws(lines[..i]), lines[i].raw);
        assert Raws(lines[..i + 1]) == Raws(lines[..i]) + [lines[i].raw];
        body := if i == 0 then lines[i].raw else body + "\n" + lines[i].raw;
      }
      assert lines[..|lines|] == lines;
      body := body + "\n";
      if Faithful(lines) {
        LoadAfterSaveIff(lines);
      }
    }

    /** Fills in what is missing: a variable that has a value is never overwritten. */
    method Init(registry: seq<Def>) returns (created: seq<string>)
      requires Faithful(lines)
      requires forall i :: 0 <= i < |registry| && registry[i].generated ==>
        IsName(registry[i].key) && IsGenerated(registry[i].secret)
      modifies this
      ensures Faithful(lines)
      ensures forall k ::
        (Value(lines, k) == if Value(old(lines), k) in {None, Some("")} && SecretFor(registry, k).Some?
                            then SecretFor(registry, k) else Value(old(lines), k))
      ensures forall k ::
        (k in created <==> SecretFor(registry, k).Some? && Value(old(lines), k) in {None, Some("")})
    {
      hide Value;
      hide Updated;
      hide Serialize;
      hide Faithful;
      hide IsName;
      created := [];
      var i := 0;
      while i < |registry|
        invariant 0 <= i <= |registry|
        invariant Faithful(lines)
        invariant forall k :: Value(lines, k) == Filled(Value(old(lines), k), SecretFor(registry[..i], k))
        invariant forall k :: k in created <==> SecretFor(registry[..i], k).Some? && !HasValue(Value(old(lines), k))
        invariant forall k :: SecretFor(registry[..i], k).Some? ==> SecretFor(registry[..i], k).value != ""
      {
        var def := registry[i];
        assert registry[..i + 1][..i] == registry[..i];
        if def.generated {
          var existing := GetValue(def.key);
          if !HasValue(existing) {
            GeneratedIsAccepted(def.key, def.secret);
            SetKeepsFaithful(lines, def.key, def.secret);
            forall k
              ensures Value(Updated(lines, def.key, Serialize(def.key, def.secret).value), k)
                == if k == def.key then Some(def.secret) else Value(lines, k)
            {
              GetAfterSet(lines, def.key, def.secret, k);
            }
            var _ := SetValue(def.key, def.secret);
            created := created + [def.key];
          }
        }
        i := i + 1;
      }
      assert registry[..|registry|] == registry;
    }
  }
}
