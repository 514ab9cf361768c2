/**
 What the scrubber does, said on texts instead of on its lexer: one law for every form a SQL text
 can start with, in the characters that make it. Together they read any text from left to right.
 */
module SqlGrammar {
  import opened SqlScan

  // ---------------------------------------------------------------- dollar tags

  /** `name` may stand between the two dollars of a tag. */
  predicate IsIdentifier(name: string) {
    && name != ""
    && ('a' <= name[0] <= 'z' || 'A' <= name[0] <= 'Z' || name[0] == '_')
    && forall k :: 0 <= k < |name| ==>
         'a' <= name[k] <= 'z' || 'A' <= name[k] <= 'Z' || name[k] == '_' || '0' <= name[k] <= '9'
  }

  predicate IsTagName(name: string) {
    name == "" || IsIdentifier(name)
  }

  /** A tag is read as far as its second dollar, whatever follows. */
  lemma TagIsRead(name: string, rest: string)
    requires IsTagName(name)
    ensures TagLen("$" + name + "$" + rest) == |name| + 2
  {
    var s := "$" + name + "$" + rest;
    assert s[1..] == name + ("$" + rest);
    assert forall k :: 0 <= k < |name| ==> s[1..][k] == name[k];
    assert s[1..][|name|] == '$';
    TagRunIs(s[1..], |name|);
  }

  /** Nothing else is a tag. */
  lemma OnlyTagsAreRead(s: string)
    requires TagLen(s) > 0
    ensures exists name, rest :: IsTagName(name) && s == "$" + name + "$" + rest
  {
    var n := TagLen(s);
    var name, rest := s[1..n - 1], s[n..];
    assert forall k :: 0 <= k < |name| ==> name[k] == s[k + 1];
    assert s == "$" + name + "$" + rest;
    assert IsTagName(name);
  }

  /** A text starts with a dollar tag exactly when it is one dollar, a name or nothing, and another. */
  lemma TagIff(s: string)
    ensures TagLen(s) > 0 <==> exists name, rest :: IsTagName(name) && s == "$" + name + "$" + rest
  {
    if TagLen(s) > 0 {
      OnlyTagsAreRead(s);
    }
    if name, rest :| IsTagName(name) && s == "$" + name + "$" + rest {
      TagIsRead(name, rest);
    }
  }

  // ---------------------------------------------------------------- one token in front

  /** Reading one token of a known width, with what it becomes. */
  lemma OneToken(s: string, head: string, rest: string, out: string)
    requires s == head + rest && s != "" && Width(FirstToken(s)) == |head| && ScrubToken(s) == out
    ensures Scrub(s) == out + Scrub(rest)
  {
    hide FirstToken;
    hide ScrubToken;
    assert s[|head|..] == rest;
    ScrubUnfold(s);
  }

  lemma FoundAt(s: string, pat: string, at: nat)
    requires Occurs(s, pat, at) && forall k: nat :: k < at ==> !Occurs(s, pat, k)
    ensures Find(s, pat) == at
  {
  }

  lemma Pieces(a: string, b: string, c: string, d: string)
    ensures var s := a + b + c + d;
      && s[..|a|] == a && s[|a|..] == b + c + d && s[|a|..|a| + |b|] == b
      && s[|a| + |b|..|a| + |b| + |c|] == c && s[|a| + |b| + |c|..] == d
      && s == a + (b + c + d) && s == (a + b + c) + d
      && (b + c + d)[|b|..|b| + |c|] == c
  {
  }

  /** `$$`, or `$name$`. */
  ghost predicate IsTag(tag: string) {
    exists name :: IsTagName(name) && tag == "$" + name + "$"
  }

  lemma TagLenOf(tag: string, rest: string)
    requires IsTag(tag)
    ensures TagLen(tag + rest) == |tag| >= 2
  {
    var name :| IsTagName(name) && tag == "$" + name + "$";
    TagIsRead(name, rest);
  }

  lemma DollarTokenIs(tag: string, body: string, rest: string)
    requires IsTag(tag) && forall k: nat :: k < |body| ==> !Occurs(body + tag + rest, tag, k)
    ensures FirstToken(tag + body + tag + rest) == Dollar(|tag|, |body|, true)
  {
    Pieces(tag, body, tag, rest);
    TagLenOf(tag, body + tag + rest);
    var s := tag + body + tag + rest;
    DollarToken(s);
    hide FirstToken;
    hide TagLen;
    hide IsTag;
    FoundAt(body + tag + rest, tag, |body|);
    hide Find;
    hide Occurs;
  }

  lemma DollarHead(s: string, tag: string, body: string)
    requires s != "" && FirstToken(s) == Dollar(|tag|, |body|, true) && |tag| + |body| + |tag| <= |s|
    requires s[..|tag|] == tag && s[|tag|..|tag| + |body|] == body
    requires s[|tag| + |body|..|tag| + |body| + |tag|] == tag
    ensures Width(FirstToken(s)) == |tag| + |body| + |tag| && ScrubToken(s) == tag + Scrub(body) + tag
  {
    hide FirstToken;
    hide Scrub;
    ScrubDollar(s);
    hide ScrubToken;
  }

  /** `$tag$ body $tag$`: the delimiters stay, the body is scrubbed as a text of its own. */
  lemma DollarQuoted(tag: string, body: string, rest: string)
    requires IsTag(tag) && forall k: nat :: k < |body| ==> !Occurs(body + tag + rest, tag, k)
    ensures Scrub(tag + body + tag + rest) == tag + Scrub(body) + tag + Scrub(rest)
  {
    DollarTokenIs(tag, body, rest);
    Pieces(tag, body, tag, rest);
    var s := tag + body + tag + rest;
    var head := tag + body + tag;
    assert s == head + rest;
    hide *;
    DollarHead(s, tag, body);
    OneToken(s, head, rest, tag + Scrub(body) + tag);
  }

  lemma OpenDollarTokenIs(tag: string, body: string)
    requires IsTag(tag) && forall k: nat :: !Occurs(body, tag, k)
    ensures FirstToken(tag + body) == Dollar(|tag|, |body|, false)
  {
    var s := tag + body;
    TagLenOf(tag, body);
    assert s[|tag|..] == body && s[..|tag|] == tag;
    DollarToken(s);
    hide FirstToken;
    hide TagLen;
    hide IsTag;
    assert Find(body, tag) == -1;
  }

  /** A tag that is not found again: the rest of the text is its body. */
  lemma DollarUnclosed(tag: string, body: string)
    requires IsTag(tag) && forall k: nat :: !Occurs(body, tag, k)
    ensures Scrub(tag + body) == tag + Scrub(body)
  {
    var s := tag + body;
    OpenDollarTokenIs(tag, body);
    ScrubDollar(s);
    assert Scrub("") == "";
    hide FirstToken;
    hide ScrubToken;
    hide Scrub;
    hide IsTag;
    hide Occurs;
    assert s[|tag|..|s|] == body && s[|s|..|s|] == "" && s[..|tag|] == tag && s == s + "";
    OneToken(s, s, "", tag + Scrub(body));
  }

  // ---------------------------------------------------------------- blanked tokens

  /** A token that is blanked as a whole. */
  lemma BlankedToken(s: string, head: string, rest: string)
    requires s == head + rest && s != ""
    requires FirstToken(s) == LineComment(|head|) || FirstToken(s) == BlockComment(|head|) || FirstToken(s) == Literal(|head|)
    ensures Scrub(s) == Blanked(head) + Scrub(rest)
  {
    assert s[..|head|] == head;
    assert ScrubToken(s) == Blanked(head) by {
      hide FirstToken;
    }
    hide FirstToken;
    hide ScrubToken;
    hide Scrub;
    OneToken(s, head, rest, Blanked(head));
  }

  lemma NewlineAfter(head: string, rest: string)
    requires '\n' !in head && (rest == "" || rest[0] == '\n')
    ensures Find(head + rest, "\n") == if rest == "" then -1 else |head|
  {
    var s := head + rest;
    forall k: nat | Occurs(s, "\n", k)
      ensures k >= |head|
    {
      assert s[k..k + 1][0] == s[k];
    }
    if rest != "" {
      assert s[|head|..|head| + 1] == [rest[0]];
      FoundAt(s, "\n", |head|);
    }
  }

  /** `-- …` is blanked up to the end of its line. */
  lemma LineCommentIsBlanked(comment: string, rest: string)
    requires |comment| >= 2 && comment[0] == '-' && comment[1] == '-' && '\n' !in comment
    requires rest == "" || rest[0] == '\n'
    ensures Scrub(comment + rest) == seq(|comment|, _ => ' ') + Scrub(rest)
  {
    var s := comment + rest;
    NewlineAfter(comment, rest);
    assert FirstToken(s) == LineComment(|comment|) by {
      hide Find;
    }
    hide FirstToken;
    hide Scrub;
    BlankedToken(s, comment, rest);
    assert Blanked(comment) == seq(|comment|, _ => ' ');
  }

  /** No comment mark of either kind. */
  predicate NoMarks(t: string) {
    forall k :: 0 <= k < |t| - 1 ==> !(t[k] == '/' && t[k + 1] == '*') && !(t[k] == '*' && t[k + 1] == '/')
  }

  /** The text `t` and the text after it do not make a mark where they meet. */
  predicate Apart(t: string, rest: string) {
    t != "" && rest != "" ==>
      !(t[|t| - 1] == '/' && rest[0] == '*') && !(t[|t| - 1] == '*' && rest[0] == '/')
  }

  /** What stands between the marks of a comment: text, and whole comments in between. */
  datatype Inside = Last(text: string) | Nest(text: string, inner: Inside, next: Inside)

  function Spelled(i: Inside): string {
    match i
    case Last(text) => text
    case Nest(text, inner, next) => text + ("/*" + (Spelled(inner) + ("*/" + Spelled(next))))
  }

  /** No text makes a mark, alone or with the marks around it. */
  predicate WellSpelled(i: Inside) {
    match i
    case Last(text) => NoMarks(text) && Apart(text, "*")
    case Nest(text, inner, next) => NoMarks(text) && Apart(text, "/") && WellSpelled(inner) && WellSpelled(next)
  }

  lemma {:induction false} BlockLenText(t: string, rest: string, depth: nat)
    requires depth > 0 && NoMarks(t) && Apart(t, rest)
    ensures BlockLen(t + rest, depth) == |t| + BlockLen(rest, depth)
  {
    if t == "" {
      assert t + rest == rest;
    } else {
      var s := t + rest;
      assert s[1..] == t[1..] + rest;
      assert s[0] == t[0] && (|s| > 1 ==> s[1] == if |t| > 1 then t[1] else rest[0]);
      BlockLenText(t[1..], rest, depth);
      assert !StartsWith(s, "/*") && !StartsWith(s, "*/");
    }
  }

  lemma BlockLenOpen(rest: string, depth: nat)
    requires depth > 0
    ensures BlockLen("/*" + rest, depth) == 2 + BlockLen(rest, depth + 1)
    ensures BlockLen("*/" + rest, depth) == 2 + BlockLen(rest, depth - 1)
  {
    assert ("/*" + rest)[2..] == rest && ("*/" + rest)[2..] == rest;
    assert "/*" <= "/*" + rest && "*/" <= "*/" + rest;
    assert ("*/" + rest)[0] != "/*"[0];
  }

  lemma {:induction false} BlockLenInside(i: Inside, rest: string, depth: nat)
    requires depth > 0 && WellSpelled(i)
    ensures BlockLen(Spelled(i) + ("*/" + rest), depth) == |Spelled(i)| + 2 + BlockLen(rest, depth - 1)
    decreases i
  {
    hide BlockLen;
    match i
    case Last(text) =>
      BlockLenText(text, "*/" + rest, depth);
      BlockLenOpen(rest, depth);
    case Nest(text, inner, next) =>
      var after := Spelled(next) + ("*/" + rest);
      var middle := Spelled(inner) + ("*/" + after);
      assert Spelled(i) + ("*/" + rest) == text + ("/*" + middle);
      BlockLenText(text, "/*" + middle, depth);
      BlockLenOpen(middle, depth);
      BlockLenInside(inner, after, depth + 1);
      BlockLenInside(next, rest, depth);
  }

  /** `/* … */`, with whole comments inside, is blanked but for its newlines. */
  lemma BlockCommentIsBlanked(comment: string, i: Inside, rest: string)
    requires WellSpelled(i) && comment == "/*" + (Spelled(i) + "*/")
    ensures Scrub(comment + rest) == Blanked(comment) + Scrub(rest)
  {
    var s := comment + rest;
    assert s[2..] == Spelled(i) + ("*/" + rest);
    BlockLenInside(i, rest, 1);
    assert BlockLen(rest, 0) == 0;
    assert s[..2] == "/*";
    assert FirstToken(s) == BlockComment(|comment|) by {
      hide BlockLen;
    }
    hide FirstToken;
    hide Scrub;
    BlankedToken(s, comment, rest);
  }

  lemma {:induction false} BlockLenOpenEnded(i: Inside, depth: nat)
    requires depth > 0 && WellSpelled(i)
    ensures BlockLen(Spelled(i), depth) == |Spelled(i)|
  {
    hide BlockLen;
    match i
    case Last(text) =>
      assert text + "" == text;
      BlockLenText(text, "", depth);
      BlockLenOfNothing(depth);
    case Nest(text, inner, next) =>
      var middle := Spelled(inner) + ("*/" + Spelled(next));
      BlockLenText(text, "/*" + middle, depth);
      BlockLenOpen(middle, depth);
      BlockLenInside(inner, Spelled(next), depth + 1);
      BlockLenOpenEnded(next, depth);
  }

  lemma BlockLenOfNothing(depth: nat)
    ensures BlockLen("", depth) == 0
  {
  }

  /** One that is not closed takes the rest of the text. */
  lemma OpenBlockCommentIsBlanked(i: Inside)
    requires WellSpelled(i)
    ensures Scrub("/*" + Spelled(i)) == Blanked("/*" + Spelled(i))
  {
    var s := "/*" + Spelled(i);
    assert s[2..] == Spelled(i) && s[..2] == "/*" && s == s + "";
    BlockLenOpenEnded(i, 1);
    assert FirstToken(s) == BlockComment(|s|) by {
      hide BlockLen;
    }
    assert Scrub("") == "";
    hide FirstToken;
    hide Scrub;
    BlankedToken(s, s, "");
  }

  // ---------------------------------------------------------------- literals

  /** A value as it stands between single quotes. */
  function Doubled(v: string): string {
    if v == "" then "" else (if v[0] == '\'' then "''" else [v[0]]) + Doubled(v[1..])
  }

  lemma {:induction false} LiteralLenDoubled(v: string, rest: string)
    requires rest == "" || (rest[0] == '\'' && (|rest| > 1 ==> rest[1] != '\''))
    ensures LiteralLen(Doubled(v) + rest) == |Doubled(v)| + if rest == "" then 0 else 1
  {
    var s := Doubled(v) + rest;
    if v == "" {
      assert s == rest;
    } else {
      LiteralLenDoubled(v[1..], rest);
      var next := Doubled(v[1..]) + rest;
      if v[0] == '\'' {
        assert s[..2] == "''" && s[2..] == next;
      } else {
        assert s[0] == v[0] && s[1..] == next;
      }
    }
  }

  lemma LiteralToken(s: string)
    requires s != "" && s[0] == '\''
    ensures FirstToken(s) == Literal(1 + LiteralLen(s[1..]))
  {
    hide LiteralLen;
  }

  lemma NothingToScrub()
    ensures Scrub("") == ""
  {
  }

  /** A string literal, with doubled quotes inside, is blanked but for its newlines. */
  lemma LiteralIsBlanked(literal: string, v: string, rest: string)
    requires literal == "'" + (Doubled(v) + "'") && (rest == "" || rest[0] != '\'')
    ensures Scrub(literal + rest) == Blanked(literal) + Scrub(rest)
  {
    hide FirstToken;
    hide LiteralLen;
    hide Doubled;
    hide Scrub;
    var s := literal + rest;
    assert s[1..] == Doubled(v) + ("'" + rest);
    LiteralLenDoubled(v, "'" + rest);
    LiteralToken(s);
    BlankedToken(s, literal, rest);
  }

  /** One that is not closed takes the rest of the text. */
  lemma OpenLiteralIsBlanked(v: string)
    ensures Scrub("'" + Doubled(v)) == Blanked("'" + Doubled(v))
  {
    hide FirstToken;
    hide LiteralLen;
    hide Doubled;
    hide Scrub;
    var s := "'" + Doubled(v);
    assert s[1..] == Doubled(v) == Doubled(v) + "" && s == s + "";
    LiteralLenDoubled(v, "");
    LiteralToken(s);
    NothingToScrub();
    BlankedToken(s, s, "");
  }

  // ---------------------------------------------------------------- what is kept

  lemma KeptToken(s: string, head: string, rest: string)
    requires s == head + rest && s != ""
    requires FirstToken(s) == Quoted(|head|) || (FirstToken(s) == Plain && |head| == 1)
    ensures Scrub(s) == head + Scrub(rest)
  {
    assert s[..|head|] == head;
    assert ScrubToken(s) == head by {
      hide FirstToken;
    }
    hide FirstToken;
    hide ScrubToken;
    hide Scrub;
    OneToken(s, head, rest, head);
  }

  lemma QuoteAfter(text: string, rest: string)
    requires '"' !in text && (rest == "" || rest[0] == '"')
    ensures Find(text + rest, "\"") == if rest == "" then -1 else |text|
  {
    var s := text + rest;
    forall k: nat | Occurs(s, "\"", k)
      ensures k >= |text|
    {
      assert s[k..k + 1][0] == s[k];
    }
    if rest != "" {
      assert s[|text|..|text| + 1] == [rest[0]];
      FoundAt(s, "\"", |text|);
    }
  }

  /** A quoted identifier is kept, whatever stands in it. */
  lemma QuotedIdentifierIsKept(identifier: string, text: string, rest: string)
    requires identifier == "\"" + (text + "\"") && '"' !in text
    ensures Scrub(identifier + rest) == identifier + Scrub(rest)
  {
    var s := identifier + rest;
    assert s[1..] == text + ("\"" + rest);
    QuoteAfter(text, "\"" + rest);
    QuotedToken(s);
    hide FirstToken;
    hide Find;
    hide Scrub;
    KeptToken(s, identifier, rest);
  }

  lemma OpenIdentifierIsKept(text: string)
    requires '"' !in text
    ensures Scrub("\"" + text) == "\"" + text
  {
    var s := "\"" + text;
    assert s[1..] == text == text + "" && s == s + "";
    QuoteAfter(text, "");
    QuotedToken(s);
    assert Scrub("") == "";
    hide FirstToken;
    hide Find;
    hide Scrub;
    KeptToken(s, s, "");
  }

  /** Any other character is kept: also a dash, a slash or a dollar that begins nothing. */
  lemma OtherCharacterIsKept(c: char, rest: string)
    requires c != '\'' && c != '"'
    requires c == '-' ==> rest == "" || rest[0] != '-'
    requires c == '/' ==> rest == "" || rest[0] != '*'
    requires c == '$' ==> !exists name, after :: IsTagName(name) && [c] + rest == "$" + name + "$" + after
    ensures Scrub([c] + rest) == [c] + Scrub(rest)
  {
    var s := [c] + rest;
    assert s[0] == c && (|s| > 1 ==> s[1] == rest[0]);
    if TagLen(s) > 0 {
      OnlyTagsAreRead(s);
    }
    assert !StartsWith(s, "--") && !StartsWith(s, "/*");
    assert FirstToken(s) == Plain by {
      hide TagLen;
    }
    hide FirstToken;
    hide Scrub;
    KeptToken(s, [c], rest);
  }

  // ---------------------------------------------------------------- lines

  /** What lines are counted by. */
  lemma {:induction false} NewlinesAreCounted(s: string)
    ensures Newlines(s) == multiset(s)['\n']
  {
    if s != "" {
      NewlinesAreCounted(s[1..]);
      assert s == [s[0]] + s[1..];
    }
  }
}
