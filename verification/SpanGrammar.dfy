/**
 What the scan of persisted expressions finds, stated on the text itself: the spans of
 scripts/check-migration-safety.ts for a match before a parenthesis and before an expression.
 */
module SpanGrammar {
  import opened MigrationSafety

  /** Opening less closing parentheses. */
  function Open(s: string): int {
    var m := multiset(s);
    m['('] as int - m[')'] as int
  }

  /** It closes no parenthesis it has not opened. */
  ghost predicate NeverBelow(s: string) {
    forall k :: 0 <= k <= |s| ==> Open(s[..k]) >= 0
  }

  lemma {:induction false} DepthCounts(code: string, from: nat, end: nat)
    requires from <= end <= |code|
    ensures Depth(code, from, end) == Open(code[from..end])
    decreases end
  {
    if from < end {
      DepthCounts(code, from, end - 1);
      assert code[from..end] == code[from..end - 1] + [code[end - 1]];
    }
  }

  /** The depth inside `inner`, wherever it stands. */
  lemma DepthInside(pre: string, inner: string, post: string, k: nat)
    requires k <= |inner|
    ensures Depth(pre + inner + post, |pre|, |pre| + k) == Open(inner[..k])
  {
    var code := pre + inner + post;
    DepthCounts(code, |pre|, |pre| + k);
    assert code[|pre|..|pre| + k] == inner[..k];
  }

  lemma OpenAfter(inner: string, k: nat)
    requires k <= |inner|
    ensures Open(("(" + inner)[..k + 1]) == 1 + Open(inner[..k])
  {
    assert ("(" + inner)[..k + 1] == "(" + inner[..k];
  }

  /** A parenthesis is closed by the one that balances it, whatever follows. */
  lemma ParenthesisCloses(pre: string, inner: string, post: string)
    requires NeverBelow(inner) && Open(inner) == 0
    ensures ClosesAt(pre + ("(" + inner + ")") + post, |pre|, |pre| + |inner| + 2)
  {
    var all := "(" + inner + ")";
    forall j | |pre| < j < |pre| + |inner| + 2
      ensures Depth(pre + all + post, |pre|, j) > 0
    {
      var k := j - |pre| - 1;
      DepthInside(pre, all, post, k + 1);
      OpenAfter(inner, k);
      assert all[..k + 1] == ("(" + inner)[..k + 1];
    }
    DepthInside(pre, all, post, |inner| + 2);
    assert all[..|inner| + 2] == all;
  }

  /** One that nothing closes runs to the end of the text. */
  lemma ParenthesisStaysOpen(pre: string, inner: string)
    requires NeverBelow(inner)
    ensures ClosesAt(pre + ("(" + inner) + "", |pre|, |pre| + |inner| + 1)
  {
    forall j | |pre| < j <= |pre| + |inner| + 1
      ensures Depth(pre + ("(" + inner) + "", |pre|, j) > 0
    {
      var k := j - |pre| - 1;
      assert inner[..k] == inner[..k];
      DepthInside(pre, "(" + inner, "", k + 1);
      OpenAfter(inner, k);
    }
  }

  /** No comma stands outside the parentheses of `s`. */
  ghost predicate OnePiece(s: string) {
    forall k :: 0 <= k < |s| && Open(s[..k]) == 0 ==> s[k] != ','
  }

  lemma OpenOneMore(s: string, k: nat)
    requires k < |s|
    ensures Open(s[..k + 1]) == Open(s[..k]) + if s[k] == '(' then 1 else if s[k] == ')' then -1 else 0
  {
    assert s[..k + 1] == s[..k] + [s[k]];
  }

  lemma NothingDelimits(pre: string, inner: string, post: string, k: nat)
    requires NeverBelow(inner) && OnePiece(inner) && k < |inner|
    ensures !Delimits(pre + inner + post, |pre|, |pre| + k)
  {
    hide Open;
    hide Depth;
    DepthInside(pre, inner, post, k);
    assert (pre + inner + post)[|pre| + k] == inner[k];
    OpenOneMore(inner, k);
    assert Open(inner[..k + 1]) >= 0;
  }

  /** An expression ends before the comma, or the closing parenthesis, that belongs to none of its own. */
  lemma ExpressionEnds(pre: string, inner: string, post: string)
    requires NeverBelow(inner) && OnePiece(inner)
    requires post == "" || (Open(inner) == 0 && (post[0] == ',' || post[0] == ')'))
    ensures ExpressionEndsAt(pre + inner + post, |pre|, |pre| + |inner|)
  {
    hide Open;
    hide NeverBelow;
    hide OnePiece;
    hide Depth;
    var code := pre + inner + post;
    forall j | |pre| <= j < |pre| + |inner|
      ensures !Delimits(code, |pre|, j)
    {
      NothingDelimits(pre, inner, post, j - |pre|);
    }
    DepthInside(pre, inner, post, |inner|);
    assert inner[..|inner|] == inner;
  }

  /** The span of a match that ends in a parenthesis: from the match to the end of what that holds. */
  lemma ParenthesisSpan(pre: string, hit: string, inner: string, post: string, kind: string, s: Span)
    requires NeverBelow(inner) && Open(inner) == 0
    ensures var code := pre + hit + ("(" + inner + ")") + post;
      SpanOf(code, Match(|pre|, |hit| + 1, kind), s) <==> s == Span(|pre|, |pre| + |hit| + |inner| + 2, kind)
  {
    var code := pre + hit + ("(" + inner + ")") + post;
    var open := |pre| + |hit|;
    assert code[open] == '(';
    ParenthesisCloses(pre + hit, inner, post);
    if ClosesAt(code, open, s.end) {
      CloseIsUnique(code, open, s.end, open + |inner| + 2);
    }
  }

  lemma OpenParenthesisSpan(pre: string, hit: string, inner: string, kind: string, s: Span)
    requires NeverBelow(inner)
    ensures var code := pre + hit + ("(" + inner);
      SpanOf(code, Match(|pre|, |hit| + 1, kind), s) <==> s == Span(|pre|, |code|, kind)
  {
    var code := pre + hit + ("(" + inner);
    var open := |pre| + |hit|;
    assert code[open] == '(';
    ParenthesisStaysOpen(pre + hit, inner);
    assert code == pre + hit + ("(" + inner) + "";
    if ClosesAt(code, open, s.end) {
      CloseIsUnique(code, open, s.end, |code|);
    }
  }

  /** The span of any other match: from the match to the end of the expression after it. */
  lemma ExpressionSpan(pre: string, hit: string, inner: string, post: string, kind: string, s: Span)
    requires hit != "" && hit[|hit| - 1] != '(' && NeverBelow(inner) && OnePiece(inner)
    requires post == "" || (Open(inner) == 0 && (post[0] == ',' || post[0] == ')'))
    ensures var code := pre + hit + inner + post;
      SpanOf(code, Match(|pre|, |hit|, kind), s) <==> s == Span(|pre|, |pre| + |hit| + |inner|, kind)
  {
    var code := pre + hit + inner + post;
    hide Open;
    hide NeverBelow;
    hide OnePiece;
    hide ExpressionEndsAt;
    var from := |pre| + |hit|;
    assert code[from - 1] == hit[|hit| - 1];
    ExpressionEnds(pre + hit, inner, post);
    if ExpressionEndsAt(code, from, s.end) {
      EndIsUnique(code, from, s.end, from + |inner|);
    }
  }
}
