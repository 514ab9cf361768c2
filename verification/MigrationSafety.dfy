/**
 The persisted-expression scanner of scripts/check-migration-safety.ts.

 The four regular expressions are not modelled: a `Match` is where one of them matched and
 whether its text ends in an opening parenthesis. What is modelled is the scan from there to
 the end of the expression, and the line a finding inside it is reported at.
 */
module MigrationSafety {
  import SqlScan

  datatype Match = Match(index: nat, len: nat, kind: string)
  datatype Span = Span(start: nat, end: nat, kind: string)

  /** A regular-expression match lies in the text and is not empty. */
  predicate MatchIn(code: string, m: Match) {
    m.len > 0 && m.index + m.len <= |code|
  }

  predicate EndsWithParen(code: string, m: Match)
    requires MatchIn(code, m)
  {
    code[m.index + m.len - 1] == '('
  }

  function Step(c: char): int {
    if c == '(' then 1 else if c == ')' then -1 else 0
  }

  /** Opening minus closing parentheses in `code[from..to]`. */
  function Depth(code: string, from: nat, to: nat): int
    requires from <= to <= |code|
  {
    if from == to then 0 else Depth(code, from, to - 1) + Step(code[to - 1])
  }

  /** `end` is just after the first parenthesis that closes the one at `open`, or the end of the text. */
  ghost predicate ClosesAt(code: string, open: nat, end: nat) {
    open < end <= |code|
    && (forall j :: open < j < end ==> Depth(code, open, j) > 0)
    && if Depth(code, open, end) == 0 then code[end - 1] == ')' else end == |code| && Depth(code, open, end) > 0
  }

  /** A comma or closing parenthesis that belongs to no parenthesis opened since `from`. */
  predicate Delimits(code: string, from: nat, j: nat)
    requires from <= j <= |code|
  {
    j < |code| && Depth(code, from, j) == 0 && (code[j] == ',' || code[j] == ')')
  }

  /** `end` is the first delimiter at depth zero, or the end of the text. */
  ghost predicate ExpressionEndsAt(code: string, from: nat, end: nat) {
    from <= end <= |code|
    && (forall j :: from <= j < end ==> !Delimits(code, from, j))
    && (end == |code| || Delimits(code, from, end))
  }

  lemma CloseIsUnique(code: string, open: nat, e1: nat, e2: nat)
    requires ClosesAt(code, open, e1) && ClosesAt(code, open, e2)
    ensures e1 == e2
  {
    var d1, d2 := Depth(code, open, e1), Depth(code, open, e2);
  }

  lemma EndIsUnique(code: string, from: nat, e1: nat, e2: nat)
    requires ExpressionEndsAt(code, from, e1) && ExpressionEndsAt(code, from, e2)
    ensures e1 == e2
  {
    var d1, d2 := Delimits(code, from, e1), Delimits(code, from, e2);
  }

  /** The depth inside an expression never goes below zero: it closes nothing it did not open. */
  lemma {:induction false} NoStrayClose(code: string, from: nat, end: nat, j: nat)
    requires ExpressionEndsAt(code, from, end) && from <= j <= end
    ensures Depth(code, from, j) >= 0
    decreases j
  {
    if j > from {
      NoStrayClose(code, from, end, j - 1);
      assert !Delimits(code, from, j - 1);
    }
  }

  method ExpressionEnd(code: string, from: nat) returns (j: nat)
    requires from <= |code|
    ensures ExpressionEndsAt(code, from, j)
  {
    j := from;
    var depth := 0;
    while j < |code|
      invariant from <= j <= |code|
      invariant depth == Depth(code, from, j) >= 0
      invariant forall k :: from <= k < j ==> !Delimits(code, from, k)
    {
      var c := code[j];
      if c == '(' {
        depth := depth + 1;
      } else if c == ')' {
        if depth == 0 {
          break;
        }
        depth := depth - 1;
      } else if c == ',' && depth == 0 {
        break;
      }
      j := j + 1;
    }
  }

  method ParenEnd(code: string, open: nat) returns (end: nat)
    requires open < |code| && code[open] == '('
    ensures ClosesAt(code, open, end)
  {
    var depth := 0;
    var j := open;
    while j < |code|
      invariant open <= j <= |code|
      invariant depth == Depth(code, open, j)
      invariant forall k :: open < k <= j ==> Depth(code, open, k) > 0
    {
      if code[j] == '(' {
        depth := depth + 1;
      } else if code[j] == ')' {
        depth := depth - 1;
        if depth == 0 {
          break;
        }
      }
      j := j + 1;
    }
    end := if j + 1 < |code| then j + 1 else |code|;
  }

  /** What one match's span must be. */
  ghost predicate SpanOf(code: string, m: Match, s: Span)
    requires MatchIn(code, m)
  {
    s.start == m.index && s.kind == m.kind &&
    if EndsWithParen(code, m) then ClosesAt(code, m.index + m.len - 1, s.end)
    else ExpressionEndsAt(code, m.index + m.len, s.end)
  }

  method PersistedExpressions(code: string, matches: seq<Match>) returns (spans: seq<Span>)
    requires forall k :: 0 <= k < |matches| ==> MatchIn(code, matches[k])
    ensures |spans| == |matches|
    ensures forall k :: 0 <= k < |matches| ==> SpanOf(code, matches[k], spans[k])
  {
    spans := [];
    for n := 0 to |matches|
      invariant |spans| == n
      invariant forall k :: 0 <= k < n ==> SpanOf(code, matches[k], spans[k])
    {
      var m := matches[n];
      var end: nat;
      if !EndsWithParen(code, m) {
        end := ExpressionEnd(code, m.index + m.len);
      } else {
        end := ParenEnd(code, m.index + m.len - 1);
      }
      spans := spans + [Span(m.index, end, m.kind)];
    }
  }

  /** A span found in scrubbed text, and every finding inside it, has its line in the original file. */
  lemma SpanLinesAreOriginal(sql: string, m: Match, s: Span, offset: nat)
    requires MatchIn(SqlScan.Scrub(sql), m)
    requires SpanOf(SqlScan.Scrub(sql), m, s)
    requires s.start + offset < s.end
    ensures s.start < s.end <= |sql|
    ensures SqlScan.LineNumber(sql, s.start + offset) == SqlScan.LineNumber(SqlScan.Scrub(sql), s.start + offset)
    ensures sql[s.start + offset] == SqlScan.Scrub(sql)[s.start + offset] || SqlScan.Scrub(sql)[s.start + offset] == ' '
  {
    hide SqlScan.Scrub;
    SqlScan.ScrubKeepsLines(sql, s.start + offset);
    assert SqlScan.BlanksOnly(sql, SqlScan.Scrub(sql));
    assert SqlScan.KeptOrBlanked(sql[s.start + offset], SqlScan.Scrub(sql)[s.start + offset]);
  }
}
