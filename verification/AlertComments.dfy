/**
 The comment stripper of scripts/check-alerts.ts (`stripComments` for TypeScript sources).

 The source is a character automaton with six modes that deletes text. `Lex` is a separate,
 lexeme-level reading of the same language; `StripComments` is the automaton, proved to
 print exactly the lexemes that are not comments. The laws are stated on `Strip`.
 */
module AlertComments {
  import SqlScan

  datatype Mode = Code | Line | Block | Single | Double | Template
  datatype Lexeme = Char(c: char) | Literal(text: string) | Comment(text: string)
  datatype First = First(x: Lexeme) | FirstEndsInside(mode: Mode)
  datatype Lexed = Lexed(items: seq<Lexeme>) | LexEndsInside(mode: Mode)
  datatype Result = Ok(text: string) | EndsInside(mode: Mode)

  // ---------------------------------------------------------------- lexemes

  predicate IsQuote(c: char) {
    c == '\'' || c == '"' || c == '`'
  }

  function ModeOf(quote: char): Mode
    requires IsQuote(quote)
  {
    if quote == '\'' then Single else if quote == '"' then Double else Template
  }

  /** Characters before the first newline, or -1 when there is none. */
  function LineEnd(s: string): (n: int)
    ensures -1 <= n < |s| || n == -1
    ensures n >= 0 ==> s[n] == '\n'
  {
    if s == "" then -1
    else if s[0] == '\n' then 0
    else
      var n := LineEnd(s[1..]);
      if n == -1 then -1 else n + 1
  }

  /** Characters before the first closing mark of a block comment, or -1. */
  function BlockEnd(s: string): (n: int)
    ensures n == -1 || 0 <= n <= |s| - 2
  {
    if |s| < 2 then -1
    else if s[0] == '*' && s[1] == '/' then 0
    else
      var n := BlockEnd(s[1..]);
      if n == -1 then -1 else n + 1
  }

  /** Characters of a literal's body through its closing quote, escapes skipped over, or -1. */
  function LiteralEnd(s: string, quote: char): (n: int)
    ensures n == -1 || 0 < n <= |s|
    decreases |s|
  {
    if s == "" then -1
    else if s[0] == '\\' then
      if |s| < 2 then -1
      else
        var n := LiteralEnd(s[2..], quote);
        if n == -1 then -1 else n + 2
    else if s[0] == quote then 1
    else
      var n := LiteralEnd(s[1..], quote);
      if n == -1 then -1 else n + 1
  }

  predicate StartsLine(s: string) {
    |s| >= 2 && s[0] == '/' && s[1] == '/'
  }

  predicate StartsBlock(s: string) {
    |s| >= 2 && s[0] == '/' && s[1] == '*'
  }

  function Cons(x: Lexeme, rest: Lexed): Lexed {
    match rest
    case Lexed(items) => Lexed([x] + items)
    case LexEndsInside(_) => rest
  }

  /** The first lexeme of a text; there is none when the text ends inside it. */
  function FirstLexeme(s: string): (r: First)
    requires s != ""
    ensures r.First? ==> Spelling(r.x) != "" && Spelling(r.x) <= s
  {
    if StartsLine(s) then
      var n := LineEnd(s[2..]);
      if n == -1 then FirstEndsInside(Line) else First(Comment(s[..n + 2]))
    else if StartsBlock(s) then
      var n := BlockEnd(s[2..]);
      if n == -1 then FirstEndsInside(Block) else First(Comment(s[..n + 4]))
    else if IsQuote(s[0]) then
      var n := LiteralEnd(s[1..], s[0]);
      if n == -1 then FirstEndsInside(ModeOf(s[0])) else First(Literal(s[..n + 1]))
    else
      First(Char(s[0]))
  }

  /** The lexemes of a source text; it fails where the text ends inside a comment or a literal. */
  function Lex(s: string): Lexed
    decreases |s|
  {
    if s == "" then Lexed([])
    else
      match FirstLexeme(s)
      case FirstEndsInside(mode) => LexEndsInside(mode)
      case First(x) => Cons(x, Lex(s[|Spelling(x)|..]))
  }

  function Spelling(x: Lexeme): string {
    match x
    case Char(c) => [c]
    case Literal(text) => text
    case Comment(text) => text
  }

  /** The text of a list of lexemes. */
  function Text(items: seq<Lexeme>): string {
    if items == [] then "" else Spelling(items[0]) + Text(items[1..])
  }

  /** Only the newlines of a text. */
  function NewlinesOf(s: string): (r: string)
    ensures forall k :: 0 <= k < |r| ==> r[k] == '\n'
  {
    if s == "" then "" else (if s[0] == '\n' then "\n" else "") + NewlinesOf(s[1..])
  }

  function Chars(s: string): seq<Lexeme> {
    if s == "" then [] else [Char(s[0])] + Chars(s[1..])
  }

  /** Every comment replaced by the newlines it spans. */
  function Uncomment(items: seq<Lexeme>): seq<Lexeme> {
    if items == [] then []
    else
      (if items[0].Comment? then Chars(NewlinesOf(items[0].text)) else [items[0]]) + Uncomment(items[1..])
  }

  function Strip(s: string): Result {
    match Lex(s)
    case Lexed(items) => Ok(Text(Uncomment(items)))
    case LexEndsInside(mode) => EndsInside(mode)
  }

  function Literals(items: seq<Lexeme>): seq<string> {
    if items == [] then []
    else (if items[0].Literal? then [items[0].text] else []) + Literals(items[1..])
  }

  ghost predicate NoComments(items: seq<Lexeme>) {
    forall k :: 0 <= k < |items| ==> !items[k].Comment?
  }

  // ---------------------------------------------------------------- small laws

  lemma {:induction false} TextAppend(a: seq<Lexeme>, b: seq<Lexeme>)
    ensures Text(a + b) == Text(a) + Text(b)
  {
    if a == [] {
      assert a + b == b;
    } else {
      assert (a + b)[1..] == a[1..] + b;
      TextAppend(a[1..], b);
    }
  }

  lemma {:induction false} CharsText(s: string)
    ensures Text(Chars(s)) == s
    ensures NoComments(Chars(s)) && Literals(Chars(s)) == []
  {
    if s != "" {
      CharsText(s[1..]);
      assert Chars(s)[1..] == Chars(s[1..]);
    }
  }

  lemma {:induction false} UncommentHasNoComments(items: seq<Lexeme>)
    ensures NoComments(Uncomment(items))
  {
    if items != [] {
      UncommentHasNoComments(items[1..]);
      if items[0].Comment? {
        CharsText(NewlinesOf(items[0].text));
      }
    }
  }

  lemma {:induction false} UncommentFixed(items: seq<Lexeme>)
    requires NoComments(items)
    ensures Uncomment(items) == items
  {
    if items != [] {
      UncommentFixed(items[1..]);
    }
  }

  lemma {:induction false} LiteralsAppend(a: seq<Lexeme>, b: seq<Lexeme>)
    ensures Literals(a + b) == Literals(a) + Literals(b)
  {
    if a == [] {
      assert a + b == b;
    } else {
      assert (a + b)[1..] == a[1..] + b;
      LiteralsAppend(a[1..], b);
    }
  }

  lemma {:induction false} UncommentKeepsLiterals(items: seq<Lexeme>)
    ensures Literals(Uncomment(items)) == Literals(items)
  {
    if items != [] {
      UncommentKeepsLiterals(items[1..]);
      var head := if items[0].Comment? then Chars(NewlinesOf(items[0].text)) else [items[0]];
      LiteralsAppend(head, Uncomment(items[1..]));
      if items[0].Comment? {
        CharsText(NewlinesOf(items[0].text));
      }
    }
  }

  lemma {:induction false} NewlinesJoin(a: string, b: string)
    ensures SqlScan.Newlines(a + b) == SqlScan.Newlines(a) + SqlScan.Newlines(b)
  {
    if a == "" {
      assert a + b == b;
    } else {
      assert (a + b)[1..] == a[1..] + b;
      NewlinesJoin(a[1..], b);
    }
  }

  lemma {:induction false} NewlinesOfCount(s: string)
    ensures SqlScan.Newlines(NewlinesOf(s)) == SqlScan.Newlines(s)
  {
    if s != "" {
      NewlinesOfCount(s[1..]);
      NewlinesJoin(if s[0] == '\n' then "\n" else "", NewlinesOf(s[1..]));
    }
  }

  lemma {:induction false} UncommentKeepsNewlines(items: seq<Lexeme>)
    ensures SqlScan.Newlines(Text(Uncomment(items))) == SqlScan.Newlines(Text(items))
  {
    if items != [] {
      var x := items[0];
      var head := if x.Comment? then Chars(NewlinesOf(x.text)) else [x];
      UncommentKeepsNewlines(items[1..]);
      TextAppend(head, Uncomment(items[1..]));
      NewlinesJoin(Text(head), Text(Uncomment(items[1..])));
      NewlinesJoin(Spelling(x), Text(items[1..]));
      if x.Comment? {
        CharsText(NewlinesOf(x.text));
        NewlinesOfCount(x.text);
      } else {
        assert Text([x]) == Spelling(x);
      }
    }
  }

  /** The lexemes spell the text they came from: the lexer loses nothing. */
  lemma {:induction false} LexIsLossless(s: string)
    requires Lex(s).Lexed?
    ensures Text(Lex(s).items) == s
    decreases |s|
  {
    if s != "" {
      var x := LexFirst(s);
      var rest := s[|Spelling(x)|..];
      LexIsLossless(rest);
      TextCons(x, Lex(rest).items);
      SpellsItsStart(s, x);
      hide *;
    }
  }

  lemma TextCons(x: Lexeme, rest: seq<Lexeme>)
    ensures Text([x] + rest) == Spelling(x) + Text(rest)
  {
    assert ([x] + rest)[1..] == rest;
  }

  lemma SpellsItsStart(s: string, x: Lexeme)
    requires s != "" && FirstLexeme(s) == First(x)
    ensures s == Spelling(x) + s[|Spelling(x)|..]
  {
    hide FirstLexeme;
  }

  lemma LexFirst(s: string) returns (x: Lexeme)
    requires s != "" && Lex(s).Lexed?
    ensures FirstLexeme(s) == First(x)
    ensures Lex(s[|Spelling(x)|..]).Lexed?
    ensures Lex(s).items == [x] + Lex(s[|Spelling(x)|..]).items
    ensures Lex(s).items[1..] == Lex(s[|Spelling(x)|..]).items
  {
    hide FirstLexeme;
    x := FirstLexeme(s).x;
  }

  // ---------------------------------------------------------------- no comment is created

  lemma LexNewline(s: string)
    requires s != "" && s[0] == '\n' && Lex(s[1..]).Lexed?
    ensures Lex(s) == Lexed([Char('\n')] + Lex(s[1..]).items)
  {
    assert FirstLexeme(s) == First(Char('\n'));
    hide FirstLexeme;
  }

  /** Newlines in front of a text add newline lexemes and change nothing else. */
  lemma {:induction false} LexAfterNewlines(b: string, s: string)
    requires forall k :: 0 <= k < |b| ==> b[k] == '\n'
    requires Lex(s).Lexed?
    ensures Lex(b + s) == Lexed(Chars(b) + Lex(s).items)
  {
    hide Lex;
    hide FirstLexeme;
    if b == "" {
      assert b + s == s;
    } else {
      assert (b + s)[1..] == b[1..] + s;
      LexAfterNewlines(b[1..], s);
      LexNewline(b + s);
      assert Chars(b) + Lex(s).items == [Char('\n')] + (Chars(b[1..]) + Lex(s).items);
    }
  }

  lemma LiteralEndStep(s: string, quote: char)
    requires s != ""
    ensures LiteralEnd(s, quote) ==
      if s[0] == '\\' then (if |s| < 2 || LiteralEnd(s[2..], quote) == -1 then -1 else LiteralEnd(s[2..], quote) + 2)
      else if s[0] == quote then 1
      else if LiteralEnd(s[1..], quote) == -1 then -1 else LiteralEnd(s[1..], quote) + 1
  {
  }

  /** A closed literal ends where it ended, whatever follows it. */
  lemma {:induction false} LiteralEndIsLocal(s: string, t: string, quote: char)
    requires LiteralEnd(s, quote) != -1
    ensures LiteralEnd(s[..LiteralEnd(s, quote)] + t, quote) == LiteralEnd(s, quote)
    decreases |s|
  {
    LiteralEndOfNothing(quote);
    hide LiteralEnd;
    var n := LiteralEnd(s, quote);
    var u := s[..n] + t;
    LiteralEndStep(s, quote);
    LiteralEndStep(u, quote);
    if s[0] == '\\' {
      LiteralEndIsLocal(s[2..], t, quote);
      assert u[2..] == s[2..][..n - 2] + t;
    } else if s[0] != quote {
      LiteralEndIsLocal(s[1..], t, quote);
      assert u[1..] == s[1..][..n - 1] + t;
    }
  }

  lemma LiteralEndOfNothing(quote: char)
    ensures LiteralEnd("", quote) == -1
  {
  }

  /** A text that starts with no comment keeps its first character. */
  lemma StrippedHead(s: string)
    requires s != "" && Lex(s).Lexed?
    requires !StartsLine(s) && !StartsBlock(s)
    ensures var t := Text(Uncomment(Lex(s).items)); t != "" && t[0] == s[0]
  {
    var x := LexFirst(s);
    var items := Lex(s).items;
    assert !x.Comment? && Spelling(x)[0] == s[0];
    hide Lex;
    hide FirstLexeme;
    TextAppend([x], Uncomment(items[1..]));
    assert Text([x]) == Spelling(x);
  }

  /** Stripping leaves exactly the non-comment lexemes: joining two sides makes no new token. */
  lemma {:induction false} Relex(s: string)
    requires Lex(s).Lexed?
    ensures Lex(Text(Uncomment(Lex(s).items))) == Lexed(Uncomment(Lex(s).items))
    decreases |s|
  {
    var items := Lex(s).items;
    if s == "" {
      assert items == [];
    } else {
      var x := LexFirst(s);
      var rest := s[|Spelling(x)|..];
      assert x.Comment? || (!StartsLine(s) && !StartsBlock(s));
      Relex(rest);
      hide Lex;
      hide FirstLexeme;
      var tail := Uncomment(items[1..]);
      if x.Comment? {
        var b := NewlinesOf(x.text);
        TextAppend(Chars(b), tail);
        CharsText(b);
        LexAfterNewlines(b, Text(tail));
      } else {
        TextAppend([x], tail);
        assert Text([x]) == Spelling(x);
        FirstAgain(s, x, Text(tail));
        LexOf(Spelling(x) + Text(tail), x, Text(tail));
      }
    }
  }

  lemma LexOf(u: string, x: Lexeme, t: string)
    requires u == Spelling(x) + t && u != "" && FirstLexeme(u) == First(x) && Lex(t).Lexed?
    ensures Lex(u) == Lexed([x] + Lex(t).items)
  {
    hide FirstLexeme;
    assert u[|Spelling(x)|..] == t;
  }

  /** The first lexeme, when it is no comment, is read again in front of the stripped remainder. */
  lemma FirstAgain(s: string, x: Lexeme, t: string)
    requires s != "" && FirstLexeme(s) == First(x) && !x.Comment?
    requires var rest := s[|Spelling(x)|..];
      Lex(rest).Lexed? && t == Text(Uncomment(Lex(rest).items))
    ensures Spelling(x) + t != "" && FirstLexeme(Spelling(x) + t) == First(x)
  {
    if x.Literal? {
      LiteralAgain(s, t);
    } else {
      var u := [x.c] + t;
      assert !StartsLine(u) && !StartsBlock(u) by {
        if |s| > 1 && !StartsLine(s[1..]) && !StartsBlock(s[1..]) {
          StrippedHead(s[1..]);
        }
      }
    }
  }

  lemma LiteralAgain(s: string, t: string)
    requires s != "" && FirstLexeme(s).First? && FirstLexeme(s).x.Literal?
    ensures FirstLexeme(FirstLexeme(s).x.text + t) == FirstLexeme(s)
  {
    var n := LiteralEnd(s[1..], s[0]);
    LiteralEndIsLocal(s[1..], t, s[0]);
    var u := s[..n + 1] + t;
    assert u[0] == s[0];
    assert u[1..] == s[1..][..n] + t;
    assert u[..n + 1] == s[..n + 1];
  }

  // ---------------------------------------------------------------- the laws of the stripper

  /** Stripping an accepted text again changes nothing. */
  lemma StripIdempotent(s: string)
    requires Strip(s).Ok?
    ensures Strip(Strip(s).text) == Strip(s)
  {
    var items := Lex(s).items;
    Relex(s);
    UncommentHasNoComments(items);
    UncommentFixed(Uncomment(items));
  }

  /** What is left holds no comment, the same literals in the same order, and the same lines. */
  lemma StripKeepsLiteralsAndLines(s: string)
    requires Strip(s).Ok?
    ensures Lex(Strip(s).text).Lexed? && NoComments(Lex(Strip(s).text).items)
    ensures Literals(Lex(Strip(s).text).items) == Literals(Lex(s).items)
    ensures SqlScan.Newlines(Strip(s).text) == SqlScan.Newlines(s)
  {
    var items := Lex(s).items;
    Relex(s);
    UncommentHasNoComments(items);
    UncommentKeepsLiterals(items);
    UncommentKeepsNewlines(items);
    LexIsLossless(s);
  }

  // ---------------------------------------------------------------- the automaton

  function Prepend(out: string, rest: Result): Result {
    match rest
    case Ok(text) => Ok(out + text)
    case EndsInside(_) => rest
  }

  /** What the automaton still has to print when it stands in `mode` before `s`. */
  function Rest(mode: Mode, s: string): Result {
    match mode
    case Code => Strip(s)
    case Line =>
      var n := LineEnd(s);
      if n == -1 then EndsInside(Line) else Strip(s[n..])
    case Block =>
      var n := BlockEnd(s);
      if n == -1 then EndsInside(Block) else Prepend(NewlinesOf(s[..n]), Strip(s[n + 2..]))
    case _ =>
      var quote := QuoteOf(mode);
      var n := LiteralEnd(s, quote);
      if n == -1 then EndsInside(mode) else Prepend(s[..n], Strip(s[n..]))
  }

  function QuoteOf(mode: Mode): (c: char)
    ensures mode.Single? || mode.Double? || mode.Template? ==> IsQuote(c) && ModeOf(c) == mode
  {
    match mode
    case Single => '\''
    case Double => '"'
    case _ => '`'
  }

  lemma PrependTwice(a: string, b: string, rest: Result)
    ensures Prepend(a, Prepend(b, rest)) == Prepend(a + b, rest)
  {
    if rest.Ok? {
      assert a + (b + rest.text) == (a + b) + rest.text;
    }
  }

  lemma StripCons(s: string, x: Lexeme, rest: string)
    requires s == Spelling(x) + rest && s != "" && FirstLexeme(s) == First(x)
    ensures Strip(s) == Prepend(if x.Comment? then NewlinesOf(x.text) else Spelling(x), Strip(rest))
  {
    hide FirstLexeme;
    assert s[|Spelling(x)|..] == rest;
    assert Lex(s) == Cons(x, Lex(rest));
    hide Lex;
    match Lex(rest)
    case LexEndsInside(_) =>
    case Lexed(items) =>
      var all := [x] + items;
      assert all[1..] == items;
      var head := if x.Comment? then Chars(NewlinesOf(x.text)) else [x];
      TextAppend(head, Uncomment(items));
      if x.Comment? {
        CharsText(NewlinesOf(x.text));
      } else {
        assert Text([x]) == Spelling(x);
      }
  }

  /** Entering a comment or a literal, or printing one character, from code. */
  lemma FromCode(s: string)
    requires s != ""
    ensures StartsLine(s) ==> Strip(s) == Rest(Line, s[2..])
    ensures StartsBlock(s) ==> Strip(s) == Rest(Block, s[2..])
    ensures !StartsLine(s) && !StartsBlock(s) ==>
              Strip(s) == Prepend([s[0]], Rest(if IsQuote(s[0]) then ModeOf(s[0]) else Code, s[1..]))
  {
    if StartsLine(s) {
      FromCodeLine(s);
    } else if StartsBlock(s) {
      FromCodeBlock(s);
    } else if IsQuote(s[0]) {
      FromCodeQuote(s);
    } else {
      StripCons(s, Char(s[0]), s[1..]);
    }
  }

  lemma FailsAtOnce(s: string)
    requires s != "" && FirstLexeme(s).FirstEndsInside?
    ensures Strip(s) == EndsInside(FirstLexeme(s).mode)
  {
  }

  lemma FromCodeLine(s: string)
    requires StartsLine(s)
    ensures Strip(s) == Rest(Line, s[2..])
  {
    var n := LineEnd(s[2..]);
    if n == -1 {
      FailsAtOnce(s);
    } else {
      hide Strip;
      NoNewlinesBefore(s[2..]);
      assert s[..n + 2] == "//" + s[2..][..n];
      NewlinesOfSplit("//", s[2..][..n]);
      assert s[2..][n..] == s[n + 2..];
      StripCons(s, Comment(s[..n + 2]), s[n + 2..]);
      PrependNothing(Strip(s[n + 2..]));
    }
  }

  lemma FromCodeBlock(s: string)
    requires StartsBlock(s)
    ensures Strip(s) == Rest(Block, s[2..])
  {
    var n := BlockEnd(s[2..]);
    if n == -1 {
      FailsAtOnce(s);
    } else {
      BlockFirst(s, n);
      BlockEndIsMark(s[2..]);
      hide *;
      BlockText(s, n);
      MarksAddNoNewlines(s[2..][..n]);
      StripCons(s, Comment(s[..n + 4]), s[n + 4..]);
      RestOfBlock(s[2..]);
    }
  }

  lemma BlockFirst(s: string, n: nat)
    requires StartsBlock(s) && BlockEnd(s[2..]) == n
    ensures n + 4 <= |s| && FirstLexeme(s) == First(Comment(s[..n + 4]))
    ensures Spelling(Comment(s[..n + 4])) == s[..n + 4] && s == s[..n + 4] + s[n + 4..]
  {
    hide BlockEnd;
  }

  lemma BlockText(s: string, n: nat)
    requires |s| >= n + 4 && s[..2] == "/*" && s[2..][n..n + 2] == "*/"
    ensures s[..n + 4] == "/*" + (s[2..][..n] + "*/") && s[2..][n + 2..] == s[n + 4..]
  {
    assert s[2..][n..n + 2] == s[n + 2..n + 4];
  }

  lemma RestOfBlock(s: string)
    ensures BlockEnd(s) != -1 ==>
      BlockEnd(s) + 2 <= |s| && Rest(Block, s) == Prepend(NewlinesOf(s[..BlockEnd(s)]), Strip(s[BlockEnd(s) + 2..]))
  {
    hide Strip;
  }

  lemma MarksAddNoNewlines(inner: string)
    ensures NewlinesOf("/*" + (inner + "*/")) == NewlinesOf(inner)
  {
    NewlinesOfSplit(inner, "*/");
    NewlinesOfSplit("/*", inner + "*/");
  }

  lemma FromCodeQuote(s: string)
    requires s != "" && IsQuote(s[0])
    ensures Strip(s) == Prepend([s[0]], Rest(ModeOf(s[0]), s[1..]))
  {
    var n := LiteralEnd(s[1..], s[0]);
    assert QuoteOf(ModeOf(s[0])) == s[0];
    if n == -1 {
      FailsAtOnce(s);
    } else {
      hide Strip;
      assert s[..n + 1] == [s[0]] + s[1..][..n];
      assert s[1..][n..] == s[n + 1..];
      StripCons(s, Literal(s[..n + 1]), s[n + 1..]);
      PrependTwice([s[0]], s[1..][..n], Strip(s[n + 1..]));
    }
  }

  lemma PrependNothing(rest: Result)
    ensures Prepend("", rest) == rest
  {
  }

  lemma {:induction false} NoNewlinesBefore(s: string)
    requires LineEnd(s) != -1
    ensures NewlinesOf(s[..LineEnd(s)]) == ""
  {
    var n := LineEnd(s);
    if n > 0 {
      NoNewlinesBefore(s[1..]);
      assert s[..n][1..] == s[1..][..n - 1];
    }
  }

  lemma {:induction false} NewlinesOfSplit(a: string, b: string)
    ensures NewlinesOf(a + b) == NewlinesOf(a) + NewlinesOf(b)
  {
    if a == "" {
      assert a + b == b;
    } else {
      assert (a + b)[1..] == a[1..] + b;
      NewlinesOfSplit(a[1..], b);
    }
  }

  lemma {:induction false} BlockEndIsMark(s: string)
    requires BlockEnd(s) != -1
    ensures s[BlockEnd(s)..BlockEnd(s) + 2] == "*/"
  {
    var n := BlockEnd(s);
    if n > 0 {
      BlockEndIsMark(s[1..]);
      assert s[1..][n - 1..n + 1] == s[n..n + 2];
    }
  }

  /** One step inside a comment or a literal. */
  lemma FromInside(mode: Mode, s: string)
    requires s != "" && mode != Code
    ensures mode == Line ==>
              Rest(mode, s) == if s[0] == '\n' then Prepend("\n", Strip(s[1..])) else Rest(Line, s[1..])
    ensures mode == Block ==>
              Rest(mode, s) == if |s| >= 2 && s[0] == '*' && s[1] == '/' then Strip(s[2..])
                               else Prepend(if s[0] == '\n' then "\n" else "", Rest(Block, s[1..]))
    ensures mode != Line && mode != Block ==>
              Rest(mode, s) == if s[0] == '\\' then Prepend(if |s| < 2 then s else s[..2], Rest(mode, if |s| < 2 then "" else s[2..]))
                               else Prepend([s[0]], Rest(if s[0] == QuoteOf(mode) then Code else mode, s[1..]))
  {
    if mode == Line {
      InsideLine(s);
    } else if mode == Block {
      InsideBlock(s);
    } else {
      InsideLiteral(mode, s);
    }
  }

  lemma InsideLine(s: string)
    requires s != ""
    ensures Rest(Line, s) == if s[0] == '\n' then Prepend("\n", Strip(s[1..])) else Rest(Line, s[1..])
  {
    hide Strip;
    if s[0] == '\n' {
      FromCode(s);
      assert s[0..] == s;
    } else {
      var n := LineEnd(s[1..]);
      if n != -1 {
        assert s[1..][n..] == s[n + 1..];
      }
    }
  }

  lemma InsideBlock(s: string)
    requires s != ""
    ensures Rest(Block, s) == if |s| >= 2 && s[0] == '*' && s[1] == '/' then Strip(s[2..])
                              else Prepend(if s[0] == '\n' then "\n" else "", Rest(Block, s[1..]))
  {
    hide Strip;
    var n := BlockEnd(s);
    if n == 0 {
      PrependNothing(Strip(s[2..]));
    } else if n > 0 {
      assert s[..n][1..] == s[1..][..n - 1] && s[n + 2..] == s[1..][n - 1 + 2..];
      PrependTwice(if s[0] == '\n' then "\n" else "", NewlinesOf(s[1..][..n - 1]), Strip(s[n + 2..]));
    }
  }

  predicate InLiteral(mode: Mode) {
    mode != Code && mode != Line && mode != Block
  }

  lemma RestOfLiteral(mode: Mode, s: string)
    requires InLiteral(mode)
    ensures var n := LiteralEnd(s, QuoteOf(mode));
      Rest(mode, s) == if n == -1 then EndsInside(mode) else Prepend(s[..n], Strip(s[n..]))
  {
  }

  lemma InsideEscape(mode: Mode, s: string)
    requires s != "" && InLiteral(mode) && s[0] == '\\'
    ensures Rest(mode, s) == Prepend(if |s| < 2 then s else s[..2], Rest(mode, if |s| < 2 then "" else s[2..]))
  {
    hide Strip;
    var quote := QuoteOf(mode);
    LiteralEndOfNothing(quote);
    LiteralEndStep(s, quote);
    RestOfLiteral(mode, s);
    RestOfLiteral(mode, if |s| < 2 then "" else s[2..]);
    hide LiteralEnd;
    hide Rest;
    var n := LiteralEnd(s, quote);
    if n != -1 {
      assert s[..n] == s[..2] + s[2..][..n - 2] && s[n..] == s[2..][n - 2..];
      PrependTwice(s[..2], s[2..][..n - 2], Strip(s[n..]));
    }
  }

  lemma InsidePlain(mode: Mode, s: string)
    requires s != "" && InLiteral(mode) && s[0] != '\\'
    ensures Rest(mode, s) == Prepend([s[0]], Rest(if s[0] == QuoteOf(mode) then Code else mode, s[1..]))
  {
    hide Strip;
    var quote := QuoteOf(mode);
    LiteralEndStep(s, quote);
    RestOfLiteral(mode, s);
    if s[0] == quote {
      assert s[..1] == [s[0]];
    } else {
      RestOfLiteral(mode, s[1..]);
      hide LiteralEnd;
      hide Rest;
      var n := LiteralEnd(s, quote);
      if n != -1 {
        assert s[..n] == [s[0]] + s[1..][..n - 1] && s[n..] == s[1..][n - 1..];
        PrependTwice([s[0]], s[1..][..n - 1], Strip(s[n..]));
      }
      assert Rest(mode, s) == Prepend([s[0]], Rest(mode, s[1..]));
    }
  }

  lemma InsideLiteral(mode: Mode, s: string)
    requires s != "" && InLiteral(mode)
    ensures Rest(mode, s) == if s[0] == '\\' then Prepend(if |s| < 2 then s else s[..2], Rest(mode, if |s| < 2 then "" else s[2..]))
                             else Prepend([s[0]], Rest(if s[0] == QuoteOf(mode) then Code else mode, s[1..]))
  {
    hide Rest;
    if s[0] == '\\' {
      InsideEscape(mode, s);
    } else {
      InsidePlain(mode, s);
    }
  }

  /** The automaton of the source. It fails exactly when the text ends outside code. */
  method StripComments(src: string) returns (r: Result)
    ensures r == Strip(src)
  {
    hide Strip;
    hide Rest;
    var out := "";
    var i := 0;
    var mode := Code;
    assert src[0..] == src;
    RestOfCode(src);
    while i < |src|
      invariant Strip(src) == Prepend(out, Rest(mode, if i < |src| then src[i..] else ""))
      decreases |src| - i
    {
      ghost var s := src[i..];
      ghost var was := out;
      ghost var printed;
      ghost var next;
      if mode == Code {
        FromCode(s);
        RestOfCode(s);
        assert s[1..] == src[i + 1..];
        if i + 1 < |src| && src[i] == '/' && src[i + 1] == '/' {
          assert s[2..] == src[i + 2..];
          mode := Line;
          printed, next := "", s[2..];
          i := i + 2;
        } else if i + 1 < |src| && src[i] == '/' && src[i + 1] == '*' {
          assert s[2..] == src[i + 2..];
          mode := Block;
          printed, next := "", s[2..];
          i := i + 2;
        } else {
          if src[i] == '\'' {
            mode := Single;
          } else if src[i] == '"' {
            mode := Double;
          } else if src[i] == '`' {
            mode := Template;
          }
          printed, next := [src[i]], s[1..];
          out := out + [src[i]];
          i := i + 1;
        }
      } else if mode == Line {
        FromInside(mode, s);
        RestOfCode(s[1..]);
        assert s[1..] == src[i + 1..];
        printed, next := "", s[1..];
        if src[i] == '\n' {
          mode := Code;
          out := out + "\n";
          printed := "\n";
        }
        i := i + 1;
      } else if mode == Block {
        FromInside(mode, s);
        if i + 1 < |src| && src[i] == '*' && src[i + 1] == '/' {
          RestOfCode(s[2..]);
          assert s[2..] == src[i + 2..];
          mode := Code;
          printed, next := "", s[2..];
          i := i + 2;
        } else {
          assert s[1..] == src[i + 1..];
          printed, next := "", s[1..];
          if src[i] == '\n' {
            out := out + "\n";
            printed := "\n";
          }
          i := i + 1;
        }
      } else {
        FromInside(mode, s);
        if src[i] == '\\' {
          var two := if i + 2 <= |src| then src[i..i + 2] else src[i..];
          assert |s| >= 2 ==> s[..2] == two && s[2..] == src[i + 2..];
          printed, next := two, if |s| < 2 then "" else s[2..];
          out := out + two;
          i := i + 2;
        } else {
          var quote := if mode == Single then '\'' else if mode == Double then '"' else '`';
          RestOfCode(s[1..]);
          assert s[1..] == src[i + 1..];
          if src[i] == quote {
            mode := Code;
          }
          printed, next := [src[i]], s[1..];
          out := out + [src[i]];
          i := i + 1;
        }
      }
      assert next == if i < |src| then src[i..] else "";
      PrependNothing(Rest(mode, next));
      PrependTwice(was, printed, Rest(mode, next));
      assert out == was + printed;
    }
    RestAtEnd(mode);
    r := if mode != Code then EndsInside(mode) else Ok(out);
    assert out + "" == out;
  }

  lemma RestOfCode(s: string)
    ensures Rest(Code, s) == Strip(s)
  {
  }

  lemma RestAtEnd(mode: Mode)
    ensures Rest(mode, "") == if mode == Code then Ok("") else EndsInside(mode)
  {
    assert Lex("") == Lexed([]);
  }
}
