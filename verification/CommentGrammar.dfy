/**
 What stripping does, said on texts instead of on its lexemes: one law for every form a source text
 can start with, in the characters that make it, and what can never be left.
 */
module CommentGrammar {
  import opened AlertComments

  /** The text `s` is stripped to `out` and whatever `rest` is stripped to, or rejected as `rest` is. */
  predicate Becomes(s: string, out: string, rest: string) {
    match Strip(rest)
    case Ok(text) => Strip(s) == Ok(out + text)
    case EndsInside(mode) => Strip(s) == EndsInside(mode)
  }

  lemma NothingLeft()
    ensures Strip("") == Ok("")
  {
  }

  // ---------------------------------------------------------------- comments

  lemma {:induction false} LineEndIs(text: string, rest: string)
    requires '\n' !in text && (rest == "" || rest[0] == '\n')
    ensures LineEnd(text + rest) == if rest == "" then -1 else |text|
  {
    if text == "" {
      assert text + rest == rest;
    } else {
      assert (text + rest)[1..] == text[1..] + rest;
      LineEndIs(text[1..], rest);
    }
  }

  /** `// …` goes, up to the end of its line, which stays; a text that ends in one is rejected. */
  lemma LineCommentGoes(text: string, rest: string)
    requires '\n' !in text && (rest == "" || rest[0] == '\n')
    ensures rest != "" ==> Strip("//" + (text + rest)) == Strip(rest)
    ensures rest == "" ==> Strip("//" + (text + rest)) == EndsInside(Line)
  {
    var s := "//" + (text + rest);
    assert s[2..] == text + rest && s[0] == '/' && s[1] == '/';
    LineEndIs(text, rest);
    FromCode(s);
    assert (text + rest)[|text|..] == rest;
    hide Strip;
    hide LineEnd;
  }

  /** The closing mark does not stand in `t`. */
  predicate NoClose(t: string) {
    forall k :: 0 <= k < |t| - 1 ==> !(t[k] == '*' && t[k + 1] == '/')
  }

  lemma {:induction false} BlockEndIs(text: string, rest: string)
    requires NoClose(text)
    ensures BlockEnd(text + ("*/" + rest)) == |text|
  {
    var s := text + ("*/" + rest);
    if text == "" {
      assert s == "*/" + rest;
    } else {
      assert s[1..] == text[1..] + ("*/" + rest);
      assert s[0] == text[0] && s[1] == if |text| > 1 then text[1] else '*';
      BlockEndIs(text[1..], rest);
    }
  }

  lemma {:induction false} NoBlockEnd(text: string)
    requires NoClose(text)
    ensures BlockEnd(text) == -1
  {
    if |text| >= 2 {
      NoBlockEnd(text[1..]);
    }
  }

  /** The newlines of a text, and nothing else. */
  lemma {:induction false} NewlinesAre(s: string)
    ensures NewlinesOf(s) == seq(multiset(s)['\n'], _ => '\n')
  {
    if s != "" {
      NewlinesAre(s[1..]);
      assert s == [s[0]] + s[1..];
    }
  }

  /** A block comment, whatever stands in it, leaves its newlines. */
  lemma BlockCommentGoes(text: string, rest: string)
    requires NoClose(text)
    ensures Becomes("/*" + (text + ("*/" + rest)), seq(multiset(text)['\n'], _ => '\n'), rest)
  {
    var inside := text + ("*/" + rest);
    BlockEndIs(text, rest);
    NewlinesAre(text);
    Around(text, "*/", rest);
    RestOfBlock(inside);
    EnterBlock(inside);
    Prepended("/*" + inside, NewlinesOf(text), rest);
    hide *;
  }

  lemma EnterBlock(inside: string)
    ensures Strip("/*" + inside) == Rest(Block, inside)
  {
    var s := "/*" + inside;
    assert s[2..] == inside && s[0] == '/' && s[1] == '*';
    FromCode(s);
    hide Strip;
    hide Rest;
  }

  lemma Around(a: string, b: string, c: string)
    ensures var s := a + (b + c);
      s[..|a|] == a && s[|a| + |b|..] == c && s[..|a| + |b|] == a + b
  {
  }

  lemma Prepended(s: string, out: string, rest: string)
    requires Strip(s) == Prepend(out, Strip(rest))
    ensures Becomes(s, out, rest)
  {
    hide Strip;
  }

  /** A text that ends inside one is rejected. */
  lemma OpenBlockIsRejected(text: string)
    requires NoClose(text)
    ensures Strip("/*" + text) == EndsInside(Block)
  {
    var s := "/*" + text;
    assert s[2..] == text && s[0] == '/' && s[1] == '*';
    NoBlockEnd(text);
    FromCode(s);
    hide Strip;
    hide BlockEnd;
  }

  // ---------------------------------------------------------------- literals

  /** A character of a literal, or an escaped one. */
  datatype Unit = Bare(c: char) | Escaped(c: char)

  function SpelledUnits(units: seq<Unit>): string {
    if units == [] then ""
    else (match units[0] case Bare(c) => [c] case Escaped(c) => ['\\', c]) + SpelledUnits(units[1..])
  }

  predicate InQuotes(units: seq<Unit>, quote: char) {
    forall k :: 0 <= k < |units| && units[k].Bare? ==> units[k].c != quote && units[k].c != '\\'
  }

  lemma {:induction false} LiteralEndIs(units: seq<Unit>, quote: char, rest: string)
    requires quote != '\\' && InQuotes(units, quote) && (rest == "" || rest[0] == quote)
    ensures LiteralEnd(SpelledUnits(units) + rest, quote) == if rest == "" then -1 else |SpelledUnits(units)| + 1
  {
    var s := SpelledUnits(units) + rest;
    if units == [] {
      assert s == rest;
    } else {
      var next := SpelledUnits(units[1..]) + rest;
      LiteralEndIs(units[1..], quote, rest);
      match units[0]
      case Bare(c) =>
        assert s[0] == c && s[1..] == next;
      case Escaped(c) =>
        assert s[0] == '\\' && s[2..] == next;
    }
  }

  /** A literal of any of the three kinds is kept as it is, comment marks and all. */
  lemma LiteralIsKept(literal: string, units: seq<Unit>, quote: char, rest: string)
    requires quote == '\'' || quote == '"' || quote == '`'
    requires InQuotes(units, quote) && literal == [quote] + (SpelledUnits(units) + [quote])
    ensures Becomes(literal + rest, literal, rest)
  {
    hide *;
    var body := SpelledUnits(units);
    var inside := body + ([quote] + rest);
    LiteralEndIs(units, quote, [quote] + rest);
    Around(body, [quote], rest);
    EnterLiteral(quote, inside);
    RestOfLiteral(ModeOf(quote), inside);
    PrependTwice([quote], body + [quote], Strip(rest));
    assert literal + rest == [quote] + inside;
    Prepended(literal + rest, literal, rest);
  }

  lemma EnterLiteral(quote: char, inside: string)
    requires quote == '\'' || quote == '"' || quote == '`'
    ensures IsQuote(quote) && Strip([quote] + inside) == Prepend([quote], Rest(ModeOf(quote), inside))
    ensures InLiteral(ModeOf(quote)) && QuoteOf(ModeOf(quote)) == quote
  {
    var s := [quote] + inside;
    assert s[1..] == inside && s[0] == quote;
    FromCode(s);
    hide Strip;
    hide Rest;
  }

  /** A text that ends inside one is rejected. */
  lemma OpenLiteralIsRejected(units: seq<Unit>, quote: char)
    requires quote == '\'' || quote == '"' || quote == '`'
    requires InQuotes(units, quote)
    ensures Strip([quote] + SpelledUnits(units))
      == EndsInside(if quote == '\'' then Single else if quote == '"' then Double else Template)
  {
    var inside := SpelledUnits(units);
    var s := [quote] + inside;
    assert s[1..] == inside && inside + "" == inside;
    LiteralEndIs(units, quote, "");
    FromCode(s);
    RestOfLiteral(ModeOf(quote), inside);
    hide Strip;
    hide LiteralEnd;
    hide Rest;
  }

  // ---------------------------------------------------------------- anything else

  /** Any other character is kept: also a slash that begins no comment. */
  lemma OtherCharacterIsKept(c: char, rest: string)
    requires c != '\'' && c != '"' && c != '`'
    requires c == '/' ==> rest == "" || (rest[0] != '/' && rest[0] != '*')
    ensures Becomes([c] + rest, [c], rest)
  {
    var s := [c] + rest;
    assert s[0] == c && s[1..] == rest && (|s| > 1 ==> s[1] == rest[0]);
    FromCode(s);
    hide Strip;
  }

  /** A text without quotes and without comment marks is returned as it is. */
  lemma {:induction false} NothingToStrip(s: string)
    requires '\'' !in s && '"' !in s && '`' !in s
    requires forall k :: 0 <= k < |s| - 1 ==> !(s[k] == '/' && (s[k + 1] == '/' || s[k + 1] == '*'))
    ensures Strip(s) == Ok(s)
  {
    if s == "" {
      NothingLeft();
    } else {
      assert s == [s[0]] + s[1..];
      NothingToStrip(s[1..]);
      OtherCharacterIsKept(s[0], s[1..]);
    }
  }

  // ---------------------------------------------------------------- what is never left

  /** No comment mark outside the literals of a text; `quote` is the literal it starts in, if any. */
  predicate NoOpeners(s: string, quote: set<char>)
    decreases |s|
  {
    if s == "" then true
    else if quote == {} then
      && (|s| >= 2 && s[0] == '/' ==> s[1] != '/' && s[1] != '*')
      && NoOpeners(s[1..], if s[0] == '\'' || s[0] == '"' || s[0] == '`' then {s[0]} else {})
    else if s[0] == '\\' then |s| < 2 || NoOpeners(s[2..], quote)
    else NoOpeners(s[1..], if s[0] in quote then {} else quote)
  }

  lemma {:induction false} LiteralHidesMarks(s: string, quote: char)
    requires LiteralEnd(s, quote) != -1 && NoOpeners(s[LiteralEnd(s, quote)..], {})
    ensures NoOpeners(s, {quote})
    decreases |s|
  {
    var n := LiteralEnd(s, quote);
    if s[0] == '\\' {
      assert s[2..][n - 2..] == s[n..];
      LiteralHidesMarks(s[2..], quote);
    } else if s[0] != quote {
      assert s[1..][n - 1..] == s[n..];
      LiteralHidesMarks(s[1..], quote);
    }
  }

  /** A text read without comments has no mark outside its literals. */
  lemma {:induction false} UncommentedIsClear(s: string)
    requires Lex(s).Lexed? && NoComments(Lex(s).items)
    ensures NoOpeners(s, {})
    decreases |s|
  {
    if s != "" {
      var x := LexFirst(s);
      var rest := s[|Spelling(x)|..];
      assert Lex(s).items[0] == x;
      assert NoComments(Lex(rest).items) by {
        assert forall k :: 0 <= k < |Lex(rest).items| ==> Lex(rest).items[k] == Lex(s).items[k + 1];
      }
      UncommentedIsClear(rest);
      NotAComment(s, x);
      if x.Literal? {
        LiteralHidesMarks(s[1..], s[0]);
      }
    }
  }

  lemma NotAComment(s: string, x: Lexeme)
    requires s != "" && FirstLexeme(s) == First(x) && !x.Comment?
    ensures |s| >= 2 && s[0] == '/' ==> s[1] != '/' && s[1] != '*'
    ensures if x.Literal?
            then (s[0] == '\'' || s[0] == '"' || s[0] == '`') && LiteralEnd(s[1..], s[0]) != -1
                 && s[|Spelling(x)|..] == s[1..][LiteralEnd(s[1..], s[0])..]
            else s[0] != '\'' && s[0] != '"' && s[0] != '`' && s[|Spelling(x)|..] == s[1..]
  {
    hide LiteralEnd;
  }

  /** In a stripped text no comment mark stands outside a literal: joining two sides makes none. */
  lemma StripLeavesNoOpeners(s: string)
    requires Strip(s).Ok?
    ensures NoOpeners(Strip(s).text, {})
  {
    StripKeepsLiteralsAndLines(s);
    UncommentedIsClear(Strip(s).text);
  }
}
