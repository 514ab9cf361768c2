/**
 The SQL scrubber of scripts/_lib/sql-scan.ts.

 `FirstToken`/`Scrub` are a recursive lexer over suffixes of the text; `ScrubSql` is the
 array-filling loop of the source, proved to compute the same text. The theorems about the
 scrubber are stated on `Scrub`.
 */
module SqlScan {

  // ---------------------------------------------------------------- characters

  predicate TagStart(c: char) {
    'A' <= c <= 'Z' || 'a' <= c <= 'z' || c == '_'
  }

  predicate TagChar(c: char) {
    TagStart(c) || '0' <= c <= '9'
  }

  /** What may happen to one character: kept, or blanked; a newline always stays a newline. */
  predicate KeptOrBlanked(before: char, after: char) {
    after == before || (after == ' ' && before != '\n')
  }

  predicate StartsWith(s: string, pat: string) {
    pat <= s
  }

  /** `pat` stands at offset `k` of `s`. */
  predicate Occurs(s: string, pat: string, k: nat) {
    k + |pat| <= |s| && s[k..k + |pat|] == pat
  }

  /** `indexOf`: the first occurrence of `pat` in `s`, or -1. */
  function Find(s: string, pat: string): (r: int)
    ensures r == -1 || (r >= 0 && Occurs(s, pat, r))
    ensures forall k: nat :: Occurs(s, pat, k) ==> 0 <= r <= k
  {
    if Occurs(s, pat, 0) then 0
    else if s == "" then -1
    else
      OccursShift(s, pat);
      var rest := Find(s[1..], pat);
      if rest == -1 then -1 else rest + 1
  }

  lemma OccursShift(s: string, pat: string)
    requires s != ""
    ensures forall k: nat :: k > 0 && Occurs(s, pat, k) ==> Occurs(s[1..], pat, k - 1)
    ensures forall k: nat :: Occurs(s[1..], pat, k) ==> Occurs(s, pat, k + 1)
  {
    var n := |pat|;
    forall k: nat | k > 0 && Occurs(s, pat, k) ensures Occurs(s[1..], pat, k - 1) {
      assert s[1..][k - 1..k - 1 + n] == s[k..k + n];
    }
    forall k: nat | Occurs(s[1..], pat, k) ensures Occurs(s, pat, k + 1) {
      assert s[1..][k..k + n] == s[k + 1..k + 1 + n];
    }
  }

  // ---------------------------------------------------------------- the lexer

  /** The first token of a text, with the number of characters it covers. */
  datatype Token =
    | LineComment(n: nat)
    | BlockComment(n: nat)
    | Literal(n: nat)
    | Quoted(n: nat)
    | Dollar(tag: nat, body: nat, closed: bool)
    | Plain

  function Width(t: Token): nat {
    match t
    case LineComment(n) => n
    case BlockComment(n) => n
    case Literal(n) => n
    case Quoted(n) => n
    case Dollar(tag, body, closed) => tag + body + if closed then tag else 0
    case Plain => 1
  }

  function TagRun(s: string): (n: nat)
    ensures n <= |s|
    ensures forall k :: 0 <= k < n ==> TagChar(s[k])
    ensures n < |s| ==> !TagChar(s[n])
  {
    if s != "" && TagChar(s[0]) then 1 + TagRun(s[1..]) else 0
  }

  /** The length of the dollar tag (`$$` or `$name$`) a text starts with; 0 when it has none. */
  function TagLen(s: string): (n: nat)
    ensures n <= |s|
    ensures n > 0 ==> n >= 2 && s[0] == '$' && s[n - 1] == '$'
    ensures forall k :: 0 < k < n - 1 ==> TagChar(s[k])
  {
    if s == "" || s[0] != '$' then 0
    else
      var n := TagRun(s[1..]);
      if 1 + n < |s| && s[1 + n] == '$' && (n == 0 || TagStart(s[1])) then n + 2 else 0
  }

  /** Characters up to the point where a block comment open to `depth` is closed, or all of them. */
  function BlockLen(s: string, depth: nat): (n: nat)
    ensures n <= |s|
    decreases |s|
  {
    if depth == 0 || s == "" then 0
    else if StartsWith(s, "/*") then 2 + BlockLen(s[2..], depth + 1)
    else if StartsWith(s, "*/") then 2 + BlockLen(s[2..], depth - 1)
    else 1 + BlockLen(s[1..], depth)
  }

  /** Characters of a string literal after its opening quote, through the closing one. */
  function LiteralLen(s: string): (n: nat)
    ensures n <= |s|
    decreases |s|
  {
    if s == "" then 0
    else if StartsWith(s, "''") then 2 + LiteralLen(s[2..])
    else if s[0] == '\'' then 1
    else 1 + LiteralLen(s[1..])
  }

  function FirstToken(s: string): (t: Token)
    requires s != ""
    ensures 0 < Width(t) <= |s|
    ensures t.Dollar? ==> t.tag >= 2 && t.body < |s| && t.tag + t.body <= |s|
  {
    if StartsWith(s, "--") then
      var nl := Find(s, "\n");
      assert nl != 0 by { assert s[0..1][0] == s[0]; }
      LineComment(if nl == -1 then |s| else nl)
    else if StartsWith(s, "/*") then
      BlockComment(2 + BlockLen(s[2..], 1))
    else if TagLen(s) > 0 then
      var tag := TagLen(s);
      var close := Find(s[tag..], s[..tag]);
      if close == -1 then Dollar(tag, |s| - tag, false) else Dollar(tag, close, true)
    else if s[0] == '\'' then
      Literal(1 + LiteralLen(s[1..]))
    else if s[0] == '"' then
      var q := Find(s[1..], "\"");
      Quoted(if q == -1 then |s| else q + 2)
    else
      Plain
  }

  function Blanked(s: string): (r: string)
    ensures |r| == |s|
    ensures forall k :: 0 <= k < |s| ==> r[k] == if s[k] == '\n' then '\n' else ' '
  {
    seq(|s|, k requires 0 <= k < |s| => if s[k] == '\n' then '\n' else ' ')
  }

  /** `after` is `before` with some characters blanked in place. */
  ghost predicate BlanksOnly(before: string, after: string) {
    |after| == |before| && forall k :: 0 <= k < |before| ==> KeptOrBlanked(before[k], after[k])
  }

  lemma BlanksJoin(a: string, a': string, b: string, b': string)
    requires BlanksOnly(a, a') && BlanksOnly(b, b')
    ensures BlanksOnly(a + b, a' + b')
  {
  }

  lemma BlanksWrap(s: string, from: nat, inner: string)
    requires from + |inner| <= |s|
    requires BlanksOnly(s[from..from + |inner|], inner)
    ensures BlanksOnly(s, s[..from] + inner + s[from + |inner|..])
  {
    var to := from + |inner|;
    BlanksJoin(s[..from], s[..from], s[from..to], inner);
    BlanksJoin(s[..from] + s[from..to], s[..from] + inner, s[to..], s[to..]);
    assert s == s[..from] + s[from..to] + s[to..];
  }

  lemma Split(s: string, k: nat)
    requires k <= |s|
    ensures s == s[..k] + s[k..]
  {
  }

  /** The scrubbed text: comments and literals blanked, dollar-quoted bodies scrubbed in turn. */
  function Scrub(s: string): (r: string)
    ensures |r| == |s| && BlanksOnly(s, r)
    decreases |s|, 1
  {
    if s == "" then ""
    else
      var head := ScrubToken(s);
      var w := Width(FirstToken(s));
      var rest := Scrub(s[w..]);
      BlanksJoin(s[..w], head, s[w..], rest);
      Split(s, w);
      head + rest
  }

  lemma BlanksDollar(s: string, tag: nat, body: nat, w: nat, inner: string)
    requires tag + body <= w <= |s| && BlanksOnly(s[tag..tag + body], inner)
    ensures |s[..tag] + inner + s[tag + body..w]| == w
    ensures BlanksOnly(s[..w], s[..tag] + inner + s[tag + body..w])
  {
    assert s[..w][tag..tag + body] == s[tag..tag + body];
    BlanksWrap(s[..w], tag, inner);
    assert s[..w][..tag] == s[..tag] && s[..w][tag + body..] == s[tag + body..w];
  }

  function ScrubToken(s: string): (r: string)
    requires s != ""
    ensures |r| == Width(FirstToken(s)) && BlanksOnly(s[..Width(FirstToken(s))], r)
    decreases |s|, 0
  {
    var t := FirstToken(s);
    var w := Width(t);
    match t
    case LineComment(_) => Blanked(s[..w])
    case BlockComment(_) => Blanked(s[..w])
    case Literal(_) => Blanked(s[..w])
    case Dollar(tag, body, _) =>
      var inner := Scrub(s[tag..tag + body]);
      BlanksDollar(s, tag, body, w, inner);
      s[..tag] + inner + s[tag + body..w]
    case _ => s[..w]
  }

  // ---------------------------------------------------------------- scrubbing is idempotent

  lemma ScrubUnfold(s: string)
    requires s != ""
    ensures Scrub(s) == ScrubToken(s) + Scrub(s[Width(FirstToken(s))..])
  {
    hide ScrubToken;
    hide FirstToken;
  }

  lemma ScrubDollar(s: string)
    requires s != "" && FirstToken(s).Dollar?
    ensures var t := FirstToken(s);
      ScrubToken(s) == s[..t.tag] + Scrub(s[t.tag..t.tag + t.body]) + s[t.tag + t.body..Width(t)]
  {
    hide Scrub;
    hide FirstToken;
  }

  /** A text the scrubber has nothing to blank in, at any depth of dollar quoting. */
  ghost predicate Clean(x: string)
    decreases |x|, 1
  {
    x == "" || (CleanToken(x) && Clean(x[Width(FirstToken(x))..]))
  }

  ghost predicate CleanToken(x: string)
    requires x != ""
    decreases |x|, 0
  {
    match FirstToken(x)
    case Plain => true
    case Quoted(_) => true
    case Dollar(tag, body, _) => Clean(x[tag..tag + body])
    case _ => false
  }

  /** Clean texts are exactly the fixed points of the scrubber. */
  lemma {:induction false} CleanIffFixed(x: string)
    ensures Clean(x) <==> Scrub(x) == x
    decreases |x|
  {
    hide FirstToken;
    hide ScrubToken;
    hide CleanToken;
    if x != "" {
      var w := Width(FirstToken(x));
      CleanIffFixed(x[w..]);
      CleanTokenIffFixed(x);
      assert x == x[..w] + x[w..];
      assert Scrub(x)[..w] == ScrubToken(x) && Scrub(x)[w..] == Scrub(x[w..]);
    }
  }

  lemma {:induction false} CleanTokenIffFixed(x: string)
    requires x != ""
    ensures CleanToken(x) <==> ScrubToken(x) == x[..Width(FirstToken(x))]
    decreases |x|, 0
  {
    hide Scrub;
    hide FirstToken;
    var t := FirstToken(x);
    var w := Width(t);
    if t.Dollar? {
      CleanDollar(x);
      ScrubDollar(x);
      hide ScrubToken;
      hide CleanToken;
      hide Clean;
      var body := x[t.tag..t.tag + t.body];
      CleanIffFixed(body);
      ThreeParts(x, t.tag, t.tag + t.body, w);
      Middle(x[..t.tag], body, Scrub(body), x[t.tag + t.body..w]);
    } else if !t.Plain? && !t.Quoted? {
      FirstCharBlanked(x);
    }
  }

  lemma ThreeParts(x: string, a: nat, b: nat, c: nat)
    requires a <= b <= c <= |x|
    ensures x[..c] == x[..a] + x[a..b] + x[b..c]
  {
  }

  lemma CleanDollar(x: string)
    requires x != "" && FirstToken(x).Dollar?
    ensures var t := FirstToken(x); CleanToken(x) <==> Clean(x[t.tag..t.tag + t.body])
  {
    hide Clean;
    hide FirstToken;
  }

  lemma FirstCharBlanked(x: string)
    requires x != "" && !FirstToken(x).Plain? && !FirstToken(x).Quoted? && !FirstToken(x).Dollar?
    ensures !CleanToken(x) && ScrubToken(x)[0] != x[0]
  {
    hide Scrub;
    hide Clean;
  }

  lemma Middle(a: string, b: string, b': string, c: string)
    requires |b| == |b'|
    ensures a + b + c == a + b' + c <==> b == b'
  {
    if a + b + c == a + b' + c {
      assert (a + b + c)[|a|..|a| + |b|] == b;
      assert (a + b' + c)[|a|..|a| + |b|] == b';
    }
  }

  /** Blanks in front of a clean text leave it clean. */
  lemma {:induction false} BlanksStayClean(b: string, x: string)
    requires forall k :: 0 <= k < |b| ==> b[k] == ' ' || b[k] == '\n'
    requires Clean(x)
    ensures Clean(b + x)
    decreases |b|
  {
    if b == "" {
      assert b + x == x;
    } else {
      assert (b + x)[1..] == b[1..] + x;
      BlankIsPlain(b + x);
      BlanksStayClean(b[1..], x);
    }
  }

  lemma BlankIsPlain(s: string)
    requires s != "" && (s[0] == ' ' || s[0] == '\n')
    ensures FirstToken(s).Plain?
  {
  }

  /** A text without blanks found in scrubbed text was there before. */
  lemma WasThere(s: string, r: string, pat: string, at: nat)
    requires BlanksOnly(s, r)
    requires ' ' !in pat
    requires Occurs(r, pat, at)
    ensures Occurs(s, pat, at)
  {
    forall k | 0 <= k < |pat|
      ensures s[at..][k] == pat[k]
    {
      assert r[at..][k] == r[at + k] == pat[k];
      assert KeptOrBlanked(s[at + k], r[at + k]);
    }
  }

  lemma TagRunIs(s: string, n: nat)
    requires n < |s|
    requires forall k :: 0 <= k < n ==> TagChar(s[k])
    requires !TagChar(s[n])
    ensures TagRun(s) == n
  {
    var m := TagRun(s);
    assert m <= n;
  }

  /** The tag at the start of a text depends on that tag alone. */
  lemma TagIsLocal(s: string, r: string)
    requires TagLen(s) > 0
    requires s[..TagLen(s)] <= r
    ensures TagLen(r) == TagLen(s)
  {
    var n := TagLen(s);
    assert forall k :: 0 <= k < n ==> r[k] == s[..n][k] == s[k];
    TagRunIs(r[1..], n - 2);
  }

  lemma TagHasNoBlank(s: string)
    ensures ' ' !in s[..TagLen(s)]
  {
  }

  /** Scrubbing never turns text that is no dollar tag into one. */
  lemma NoNewTag(s: string, r: string)
    requires BlanksOnly(s, r)
    requires TagLen(s) == 0
    ensures TagLen(r) == 0
  {
    if TagLen(r) > 0 {
      var tag := r[..TagLen(r)];
      TagHasNoBlank(r);
      assert r[0..] == r && s[0..] == s;
      WasThere(s, r, tag, 0);
      TagIsLocal(r, s);
    }
  }

  lemma DollarToken(s: string)
    requires s != ""
    ensures FirstToken(s).Dollar? <==> TagLen(s) > 0
    ensures var tag := TagLen(s);
      var close := Find(s[tag..], s[..tag]);
      tag > 0 ==> FirstToken(s) == if close == -1 then Dollar(tag, |s| - tag, false) else Dollar(tag, close, true)
  {
    hide Find;
  }

  /** A dollar-quoted text keeps its delimiters when its body is scrubbed. */
  lemma DollarStays(s: string, r: string)
    requires s != "" && FirstToken(s).Dollar?
    requires BlanksOnly(s, r)
    requires var t := FirstToken(s);
      && r[..t.tag] == s[..t.tag]
      && (t.closed ==> r[t.tag + t.body..Width(t)] == s[t.tag + t.body..Width(t)])
    ensures FirstToken(r) == FirstToken(s)
  {
    hide FirstToken;
    hide TagLen;
    hide Find;
    DollarToken(s);
    var t := FirstToken(s);
    assert |r| == |s|;
    CloseStays(s, r, t);
    hide BlanksOnly;
    StartsSame(s, r, t.tag);
    TagIsLocal(s, r);
    DollarToken(r);
  }

  /** The closing delimiter is found where it was. */
  lemma CloseStays(s: string, r: string, t: Token)
    requires BlanksOnly(s, r) && t.Dollar? && t.tag <= |s| && t.tag == TagLen(s)
    requires r[..t.tag] == s[..t.tag]
    requires var close := Find(s[t.tag..], s[..t.tag]);
      && t.closed == (close != -1)
      && (t.closed ==> t.body == close && r[t.tag + t.body..Width(t)] == s[t.tag + t.body..Width(t)])
    ensures Find(r[t.tag..], r[..t.tag]) == Find(s[t.tag..], s[..t.tag])
  {
    hide TagLen;
    hide Find;
    TagHasNoBlank(s);
    BlanksDrop(s, r, t.tag);
    hide BlanksOnly;
    if t.closed {
      FoundFits(s[t.tag..], s[..t.tag]);
      Window(s, t.tag, t.body);
      Window(r, t.tag, t.body);
    }
    hide Occurs;
    SameFind(s[t.tag..], r[t.tag..], s[..t.tag]);
  }

  lemma FoundFits(s: string, pat: string)
    ensures Find(s, pat) != -1 ==> 0 <= Find(s, pat) && Find(s, pat) + |pat| <= |s|
  {
  }

  lemma StartsSame(s: string, r: string, n: nat)
    requires n <= |s| == |r| && r[..n] == s[..n]
    ensures s[..n] <= r
  {
  }

  lemma BlanksDrop(s: string, r: string, n: nat)
    requires BlanksOnly(s, r) && n <= |s|
    ensures BlanksOnly(s[n..], r[n..])
  {
    assert forall k :: 0 <= k < |s| - n ==> s[n..][k] == s[n + k] && r[n..][k] == r[n + k];
  }

  lemma Window(s: string, tag: nat, body: nat)
    requires tag + body + tag <= |s|
    ensures s[tag..][body..body + tag] == s[tag + body..tag + body + tag]
  {
  }

  /** A tag without blanks is found at the same place after blanking, if that place was kept. */
  lemma SameFind(s: string, r: string, tag: string)
    requires BlanksOnly(s, r) && ' ' !in tag
    requires var at := Find(s, tag); at != -1 ==> r[at..at + |tag|] == s[at..at + |tag|]
    ensures Find(r, tag) == Find(s, tag)
  {
    hide Find;
    var there, here := Find(s, tag), Find(r, tag);
    if here != -1 {
      WasThere(s, r, tag, here);
    }
    if there != -1 {
      assert r[there..][..|tag|] == r[there..there + |tag|];
      assert s[there..][..|tag|] == s[there..there + |tag|];
      assert Occurs(r, tag, there);
    }
  }

  lemma QuotedToken(s: string)
    requires s != ""
    ensures FirstToken(s).Quoted? <==> s[0] == '"'
    ensures var q := Find(s[1..], "\""); s[0] == '"' ==> FirstToken(s) == Quoted(if q == -1 then |s| else q + 2)
  {
    hide Find;
  }

  lemma QuoteAt(s: string, k: nat)
    requires s != ""
    ensures Occurs(s[1..], "\"", k) <==> k + 1 < |s| && s[k + 1] == '"'
  {
    if k + 1 < |s| {
      assert s[1..][k..k + 1] == [s[k + 1]];
    }
  }

  lemma QuotedStays(s: string, r: string)
    requires s != "" && FirstToken(s).Quoted?
    requires |r| == |s| && r[..FirstToken(s).n] == s[..FirstToken(s).n]
    ensures FirstToken(r) == FirstToken(s)
  {
    hide FirstToken;
    hide Occurs;
    hide Find;
    QuotedToken(s);
    QuotedToken(r);
    var n := FirstToken(s).n;
    assert forall k :: 0 <= k < n ==> r[k] == r[..n][k] == s[k];
    var there, here := Find(s[1..], "\""), Find(r[1..], "\"");
    if there == -1 {
      assert r == s;
    } else {
      QuoteAt(s, there);
      QuoteAt(r, there);
      QuoteAt(r, here);
      QuoteAt(s, here);
    }
  }

  lemma PlainStays(s: string, r: string)
    requires s != "" && FirstToken(s).Plain?
    requires BlanksOnly(s, r) && r[0] == s[0]
    ensures FirstToken(r).Plain?
  {
    NoNewTag(s, r);
    if |s| > 1 {
      assert KeptOrBlanked(s[1], r[1]);
    }
  }

  /** Scrubbed text is clean: no removal creates a new token. */
  lemma {:induction false} ScrubIsClean(s: string)
    ensures Clean(Scrub(s))
    decreases |s|
  {
    if s != "" {
      var r := Scrub(s);
      var t := FirstToken(s);
      var w := Width(t);
      var head := ScrubToken(s);
      ScrubIsClean(s[w..]);
      assert r == head + Scrub(s[w..]);
      assert r[w..] == Scrub(s[w..]) && r[..w] == head;
      if t.Plain? {
        PlainStays(s, r);
      } else if t.Quoted? {
        QuotedStays(s, r);
      } else if t.Dollar? {
        DollarStaysClean(s);
      } else {
        BlanksStayClean(head, Scrub(s[w..]));
      }
    }
  }

  lemma Parts(a: string, b: string, c: string, d: string, r: string)
    requires r == a + b + c + d
    ensures r[..|a|] == a
    ensures r[|a|..|a| + |b|] == b
    ensures r[|a| + |b|..|a| + |b| + |c|] == c
  {
  }

  lemma {:induction false} DollarStaysClean(s: string)
    requires s != "" && FirstToken(s).Dollar?
    ensures FirstToken(Scrub(s)) == FirstToken(s) && CleanToken(Scrub(s))
    decreases |s|, 0
  {
    hide Scrub;
    hide ScrubToken;
    hide FirstToken;
    hide Clean;
    hide CleanToken;
    var t := FirstToken(s);
    var w := Width(t);
    var inner := s[t.tag..t.tag + t.body];
    ScrubIsClean(inner);
    ScrubDollar(s);
    ScrubUnfold(s);
    Parts(s[..t.tag], Scrub(inner), s[t.tag + t.body..w], Scrub(s[w..]), Scrub(s));
    DollarStays(s, Scrub(s));
    CleanDollar(Scrub(s));
  }

  /** Scrubbing its own output changes nothing, whatever the input. */
  lemma ScrubIdempotent(s: string)
    ensures Scrub(Scrub(s)) == Scrub(s)
  {
    ScrubIsClean(s);
    CleanIffFixed(Scrub(s));
  }

  // ---------------------------------------------------------------- what a gate may rely on

  /** Marks the characters that belong to a quoted identifier, at any dollar-quoting depth. */
  function QuotedMask(x: string): (m: seq<bool>)
    ensures |m| == |x|
    decreases |x|, 1
  {
    if x == "" then [] else TokenMask(x) + QuotedMask(x[Width(FirstToken(x))..])
  }

  function TokenMask(x: string): (m: seq<bool>)
    requires x != ""
    ensures |m| == Width(FirstToken(x))
    decreases |x|, 0
  {
    var t := FirstToken(x);
    match t
    case Quoted(n) => seq(n, _ => true)
    case Dollar(tag, body, closed) =>
      seq(tag, _ => false) + QuotedMask(x[tag..tag + body]) + seq(if closed then tag else 0, _ => false)
    case _ => seq(Width(t), _ => false)
  }

  /** `--`, a block-comment opener or a quote character stands at `k`. */
  predicate OpenerAt(x: string, k: nat) {
    k < |x| && (x[k] == '\''
      || (k + 1 < |x| && x[k] == '-' && x[k + 1] == '-')
      || (k + 1 < |x| && x[k] == '/' && x[k + 1] == '*'))
  }

  lemma {:induction false} CleanHasNoOpeners(x: string, k: nat)
    requires Clean(x)
    requires OpenerAt(x, k)
    ensures QuotedMask(x)[k]
    decreases |x|, 2
  {
    hide FirstToken;
    var t := FirstToken(x);
    var w := Width(t);
    assert QuotedMask(x) == TokenMask(x) + QuotedMask(x[w..]);
    if k >= w {
      assert OpenerAt(x[w..], k - w);
      CleanHasNoOpeners(x[w..], k - w);
    } else {
      TokenHasNoOpeners(x, k);
    }
  }

  lemma {:induction false} TokenHasNoOpeners(x: string, k: nat)
    requires x != "" && CleanToken(x) && k < Width(FirstToken(x))
    requires OpenerAt(x, k)
    ensures TokenMask(x)[k]
    decreases |x|, 1
  {
    var t := FirstToken(x);
    if t.Dollar? {
      BodyHasNoOpeners(x, k);
    } else if t.Plain? {
      hide QuotedMask;
      PlainOpensNothing(x);
      assert false;
    }
  }

  lemma {:induction false} BodyHasNoOpeners(x: string, k: nat)
    requires x != "" && CleanToken(x) && FirstToken(x).Dollar? && k < Width(FirstToken(x))
    requires OpenerAt(x, k)
    ensures TokenMask(x)[k]
    decreases |x|, 0
  {
    hide FirstToken;
    hide QuotedMask;
    hide Clean;
    hide OpenerAt;
    hide TokenMask;
    hide CleanToken;
    var t := FirstToken(x);
    CleanDollar(x);
    DollarOpeners(x, k);
    CleanHasNoOpeners(x[t.tag..t.tag + t.body], k - t.tag);
    BodyMask(x, k);
  }

  lemma PlainOpensNothing(x: string)
    requires x != "" && FirstToken(x).Plain?
    ensures !OpenerAt(x, 0)
  {
    hide TagLen;
  }

  lemma BodyMask(x: string, k: nat)
    requires x != "" && FirstToken(x).Dollar?
    requires var t := FirstToken(x); t.tag <= k < t.tag + t.body
    ensures var t := FirstToken(x); TokenMask(x)[k] == QuotedMask(x[t.tag..t.tag + t.body])[k - t.tag]
  {
    hide FirstToken;
    hide QuotedMask;
  }

  /** The characters of a dollar delimiter open nothing. */
  lemma DelimiterChars(x: string, j: nat)
    requires x != "" && FirstToken(x).Dollar? && j < FirstToken(x).tag
    ensures TagChar(x[j]) || x[j] == '$'
    ensures var t := FirstToken(x); t.closed ==> x[t.tag + t.body + j] == x[j]
  {
    var t := FirstToken(x);
    if t.closed {
      assert Occurs(x[t.tag..], x[..t.tag], t.body);
      assert x[t.tag..][t.body..][j] == x[..t.tag][j];
    }
  }

  /** Inside a dollar-quoted token an opener can only be in the body. */
  lemma DollarOpeners(x: string, k: nat)
    requires x != "" && FirstToken(x).Dollar? && k < Width(FirstToken(x))
    requires OpenerAt(x, k)
    ensures var t := FirstToken(x);
      && t.tag <= k < t.tag + t.body
      && OpenerAt(x[t.tag..t.tag + t.body], k - t.tag)
  {
    var t := FirstToken(x);
    if k < t.tag {
      DelimiterChars(x, k);
    } else if k >= t.tag + t.body {
      DelimiterChars(x, k - t.tag - t.body);
    }
    if t.closed {
      DelimiterChars(x, 0);
    }
  }

  /** Nothing that opens a comment or a literal is left, except inside a quoted identifier. */
  lemma ScrubLeavesNoOpeners(s: string, k: nat)
    requires OpenerAt(Scrub(s), k)
    ensures QuotedMask(Scrub(s))[k]
  {
    ScrubIsClean(s);
    CleanHasNoOpeners(Scrub(s), k);
  }

  // ---------------------------------------------------------------- line numbers

  function Newlines(s: string): nat {
    if s == "" then 0 else (if s[0] == '\n' then 1 else 0) + Newlines(s[1..])
  }

  /** The 1-indexed line of an offset; offsets past the end count as the end. */
  function LineNumber(text: string, offset: nat): nat {
    1 + Newlines(text[..if offset < |text| then offset else |text|])
  }

  lemma {:induction false} NewlinesAppend(a: string, c: char)
    ensures Newlines(a + [c]) == Newlines(a) + if c == '\n' then 1 else 0
  {
    if a == "" {
      assert a + [c] == [c];
    } else {
      assert (a + [c])[1..] == a[1..] + [c];
      NewlinesAppend(a[1..], c);
    }
  }

  lemma {:induction false} SameNewlines(a: string, b: string)
    requires |a| == |b|
    requires forall k :: 0 <= k < |a| ==> (a[k] == '\n' <==> b[k] == '\n')
    ensures Newlines(a) == Newlines(b)
  {
    if a != "" {
      SameNewlines(a[1..], b[1..]);
    }
  }

  /** An offset in the scrubbed text names the same line as in the original. */
  lemma ScrubKeepsLines(s: string, offset: nat)
    ensures LineNumber(Scrub(s), offset) == LineNumber(s, offset)
  {
    var n := if offset < |s| then offset else |s|;
    assert BlanksOnly(s, Scrub(s));
    SameNewlines(s[..n], Scrub(s)[..n]);
  }

  method LineAt(text: string, offset: nat) returns (line: nat)
    ensures line == LineNumber(text, offset)
  {
    line := 1;
    var i := 0;
    while i < offset && i < |text|
      invariant 0 <= i <= |text| && i <= offset
      invariant line == 1 + Newlines(text[..i])
    {
      assert text[..i + 1] == text[..i] + [text[i]];
      NewlinesAppend(text[..i], text[i]);
      if text[i] == '\n' {
        line := line + 1;
      }
      i := i + 1;
    }
  }

  // ---------------------------------------------------------------- the loop of the source

  method Blank(out: array<char>, sql: string, from: nat, to: nat)
    requires from <= to <= |sql| == out.Length
    modifies out
    ensures out[..] == old(out[..])[..from] + Blanked(sql[from..to]) + old(out[..])[to..]
  {
    for k := from to to
      invariant forall j :: from <= j < k ==> out[j] == if sql[j] == '\n' then '\n' else ' '
      invariant forall j :: 0 <= j < from || k <= j < out.Length ==> out[j] == old(out[j])
    {
      out[k] := if sql[k] == '\n' then '\n' else ' ';
    }
  }

  method Copy(out: array<char>, text: string, from: nat)
    requires from + |text| <= out.Length
    modifies out
    ensures out[..] == old(out[..])[..from] + text + old(out[..])[from + |text|..]
  {
    for k := 0 to |text|
      invariant forall j :: 0 <= j < k ==> out[from + j] == text[j]
      invariant forall j :: 0 <= j < from || from + k <= j < out.Length ==> out[j] == old(out[j])
    {
      out[from + k] := text[k];
    }
  }

  /** Two writes, one after the other, are one. */
  lemma WriteTwice(w0: string, w1: string, w2: string, from: nat, a: string, b: string)
    requires from + |a| + |b| <= |w0|
    requires w1 == w0[..from] + a + w0[from + |a|..]
    requires w2 == w1[..from + |a|] + b + w1[from + |a| + |b|..]
    ensures w2 == w0[..from] + (a + b) + w0[from + |a| + |b|..]
  {
    assert w1[..from + |a|] == w0[..from] + a;
    assert w1[from + |a| + |b|..] == w0[from + |a| + |b|..];
  }

  /** A dollar-quoted token: the delimiters as they are, the scrubbed body between them. */
  method WriteDollar(out: array<char>, sql: string, from: nat, bodyStart: nat, inner: string, to: nat)
    requires from <= bodyStart && bodyStart + |inner| <= to <= |sql| == out.Length
    modifies out
    ensures out[..] == old(out[..])[..from]
                    + (sql[from..bodyStart] + inner + sql[bodyStart + |inner|..to]) + old(out[..])[to..]
  {
    ghost var was := out[..];
    var bodyEnd := bodyStart + |inner|;
    Copy(out, sql[from..bodyStart], from);
    ghost var afterTag := out[..];
    Copy(out, inner, bodyStart);
    ghost var afterBody := out[..];
    WriteTwice(was, afterTag, afterBody, from, sql[from..bodyStart], inner);
    Copy(out, sql[bodyEnd..to], bodyEnd);
    WriteTwice(was, afterBody, out[..], from, sql[from..bodyStart] + inner, sql[bodyEnd..to]);
  }

  lemma BlockLenAt(sql: string, j: nat, depth: nat)
    requires j < |sql| && depth > 0
    ensures BlockLen(sql[j..], depth) ==
      if StartsWith(sql[j..], "/*") then 2 + BlockLen(sql[j + 2..], depth + 1)
      else if StartsWith(sql[j..], "*/") then 2 + BlockLen(sql[j + 2..], depth - 1)
      else 1 + BlockLen(sql[j + 1..], depth)
  {
    var rest := sql[j..];
    assert rest[1..] == sql[j + 1..];
    assert j + 1 < |sql| ==> rest[2..] == sql[j + 2..];
  }

  lemma BlockLenAtEnd(s: string, depth: nat)
    requires depth == 0 || s == ""
    ensures BlockLen(s, depth) == 0
  {
  }

  /** The inner loop over a nested block comment: `j` stops just after the closing mark. */
  method SkipBlock(sql: string, i: nat) returns (j: nat)
    requires i < |sql| && StartsWith(sql[i..], "/*")
    ensures i + 2 <= |sql| && j == i + 2 + BlockLen(sql[i + 2..], 1) <= |sql|
  {
    hide BlockLen;
    var depth := 1;
    j := i + 2;
    while j < |sql| && depth > 0
      invariant i + 2 <= j <= |sql| && depth >= 0
      invariant j + BlockLen(sql[j..], depth) == i + 2 + BlockLen(sql[i + 2..], 1)
      decreases |sql| - j
    {
      BlockLenAt(sql, j, depth);
      if StartsWith(sql[j..], "/*") {
        depth := depth + 1;
        j := j + 2;
      } else if StartsWith(sql[j..], "*/") {
        depth := depth - 1;
        j := j + 2;
      } else {
        j := j + 1;
      }
    }
    BlockLenAtEnd(sql[j..], depth);
  }

  lemma LiteralLenAt(sql: string, j: nat)
    requires j < |sql|
    ensures LiteralLen(sql[j..]) ==
      if sql[j] != '\'' then 1 + LiteralLen(sql[j + 1..])
      else if j + 1 < |sql| && sql[j + 1] == '\'' then 2 + LiteralLen(sql[j + 2..])
      else 1
  {
    var rest := sql[j..];
    assert StartsWith(rest, "''") <==> sql[j] == '\'' && j + 1 < |sql| && sql[j + 1] == '\'';
    assert rest[1..] == sql[j + 1..];
    assert j + 1 < |sql| ==> rest[2..] == sql[j + 2..];
  }

  lemma LiteralLenAtEnd()
    ensures LiteralLen("") == 0
  {
  }

  /** The inner loop over a string literal: a doubled quote does not close it. */
  method SkipLiteral(sql: string, i: nat) returns (j: nat)
    requires i < |sql|
    ensures j == i + 1 + LiteralLen(sql[i + 1..]) <= |sql|
  {
    hide LiteralLen;
    j := i + 1;
    while j < |sql|
      invariant i + 1 <= j <= |sql|
      invariant j + LiteralLen(sql[j..]) == i + 1 + LiteralLen(sql[i + 1..])
    {
      LiteralLenAt(sql, j);
      if sql[j] == '\'' && j + 1 < |sql| && sql[j + 1] == '\'' {
        j := j + 2;
        continue;
      }
      if sql[j] == '\'' {
        j := j + 1;
        return;
      }
      j := j + 1;
    }
    assert sql[j..] == "";
    LiteralLenAtEnd();
  }

  /** What the loop has written so far is the scrubbed text up to the token at `i`. */
  ghost predicate Scrubbed(sql: string, written: string, i: nat) {
    i <= |sql| == |written| && written[..i] + Scrub(sql[i..]) == Scrub(sql)
  }

  lemma Append(before: string, after: string, i: nat, head: string, tail: string)
    requires i + |head| <= |before|
    requires after == before[..i] + head + before[i + |head|..]
    ensures |after| == |before|
    ensures after[..i + |head|] + tail == before[..i] + (head + tail)
  {
    assert after[..i + |head|] == before[..i] + head;
  }

  lemma Advance(sql: string, before: string, after: string, i: nat, head: string)
    requires i < |sql| && Scrubbed(sql, before, i)
    requires head == ScrubToken(sql[i..])
    requires after == before[..i] + head + before[i + |head|..]
    ensures Scrubbed(sql, after, i + |head|)
  {
    var rest := sql[i..];
    assert rest[|head|..] == sql[i + |head|..];
    Append(before, after, i, head, Scrub(sql[i + |head|..]));
  }

  lemma LineStep(sql: string, i: nat, stop: nat)
    requires i < |sql| && StartsWith(sql[i..], "--")
    requires var nl := Find(sql[i..], "\n"); stop == if nl == -1 then |sql| else i + nl
    ensures i < stop <= |sql| && ScrubToken(sql[i..]) == Blanked(sql[i..stop])
  {
    var nl := Find(sql[i..], "\n");
    assert nl != 0 by { assert sql[i..][0..1][0] == sql[i..][0]; }
    assert sql[i..][..stop - i] == sql[i..stop];
  }

  lemma BlockStep(sql: string, i: nat, j: nat)
    requires i + 2 <= |sql| && StartsWith(sql[i..], "/*")
    requires j == i + 2 + BlockLen(sql[i + 2..], 1)
    ensures i < j <= |sql| && ScrubToken(sql[i..]) == Blanked(sql[i..j])
  {
    assert sql[i..][2..] == sql[i + 2..];
    assert sql[i..][..j - i] == sql[i..j];
  }

  lemma LiteralStep(sql: string, i: nat, j: nat)
    requires i < |sql| && sql[i] == '\''
    requires j == i + 1 + LiteralLen(sql[i + 1..])
    ensures i < j <= |sql| && ScrubToken(sql[i..]) == Blanked(sql[i..j])
  {
    assert sql[i..][1..] == sql[i + 1..];
    assert sql[i..][..j - i] == sql[i..j];
  }

  lemma QuotedStep(sql: string, i: nat, j: nat)
    requires i < |sql| && sql[i] == '"'
    requires var q := Find(sql[i + 1..], "\""); j == if q == -1 then |sql| else i + q + 2
    ensures i < j <= |sql| && ScrubToken(sql[i..]) == sql[i..j]
  {
    assert sql[i..][1..] == sql[i + 1..];
    assert sql[i..][..j - i] == sql[i..j];
  }

  lemma DollarTokenAt(sql: string, i: nat, n: nat, bodyEnd: nat, end: nat)
    requires i < |sql| && n == TagLen(sql[i..]) > 0
    requires var close := Find(sql[i + n..], sql[i..i + n]);
      if close == -1 then bodyEnd == end == |sql| else bodyEnd == i + n + close && end == bodyEnd + n
    ensures i + n <= bodyEnd <= end <= |sql|
    ensures FirstToken(sql[i..]) == Dollar(n, bodyEnd - i - n, end != bodyEnd)
  {
    assert sql[i..][n..] == sql[i + n..];
    assert sql[i..][..n] == sql[i..i + n];
  }

  lemma DollarStep(sql: string, i: nat, n: nat, bodyEnd: nat, end: nat)
    requires i + n <= bodyEnd <= end <= |sql| && i < |sql|
    requires FirstToken(sql[i..]) == Dollar(n, bodyEnd - i - n, end != bodyEnd)
    requires Width(FirstToken(sql[i..])) == end - i
    ensures ScrubToken(sql[i..]) == sql[i..i + n] + Scrub(sql[i + n..bodyEnd]) + sql[bodyEnd..end]
  {
    hide Scrub;
    hide ScrubToken;
    hide FirstToken;
    ScrubDollar(sql[i..]);
    assert sql[i..][..n] == sql[i..i + n];
    assert sql[i..][n..n + (bodyEnd - i - n)] == sql[i + n..bodyEnd];
    assert sql[i..][n + (bodyEnd - i - n)..end - i] == sql[bodyEnd..end];
  }

  lemma PlainStep(sql: string, i: nat)
    requires i < |sql| && TagLen(sql[i..]) == 0
    requires !StartsWith(sql[i..], "--") && !StartsWith(sql[i..], "/*")
    requires sql[i] != '\'' && sql[i] != '"'
    ensures ScrubToken(sql[i..]) == [sql[i]]
  {
    assert sql[i..][..1] == [sql[i]];
  }

  lemma StartOfText(sql: string, text: string)
    requires |text| == |sql|
    ensures Scrubbed(sql, text, 0)
  {
    assert sql[0..] == sql && text[..0] == "";
  }

  lemma EndOfText(sql: string, code: string, i: nat)
    requires i == |sql| && Scrubbed(sql, code, i)
    ensures code == Scrub(sql)
  {
    assert sql[i..] == "" && code[..i] == code;
  }

  /** The dollar branch: the delimiters are code, the body is code that is scrubbed in turn. */
  method ScrubQuotedBody(sql: string, out: array<char>, i: nat) returns (next: nat)
    requires i < |sql| == out.Length
    requires TagLen(sql[i..]) > 0 && !StartsWith(sql[i..], "--") && !StartsWith(sql[i..], "/*")
    modifies out
    ensures i < next == i + |ScrubToken(sql[i..])| <= |sql|
    ensures out[..] == old(out[..])[..i] + ScrubToken(sql[i..]) + old(out[..])[next..]
    decreases |sql|, 0
  {
    hide Scrub;
    hide ScrubToken;
    hide FirstToken;
    hide Find;
    hide TagLen;
    var n := TagLen(sql[i..]);
    var tag := sql[i..i + n];
    var close := Find(sql[i + n..], tag);
    var bodyEnd := if close == -1 then |sql| else i + n + close;
    next := if close == -1 then |sql| else bodyEnd + n;
    DollarTokenAt(sql, i, n, bodyEnd, next);
    DollarStep(sql, i, n, bodyEnd, next);
    var inner := ScrubSql(sql[i + n..bodyEnd]);
    WriteDollar(out, sql, i, i + n, inner, next);
  }

  /** One turn of the scanning loop: writes the token at `i`, and says where the next one starts. */
  method ScrubAt(sql: string, out: array<char>, i: nat) returns (next: nat)
    requires i < |sql| == out.Length
    modifies out
    ensures i < next == i + |ScrubToken(sql[i..])| <= |sql|
    ensures out[..] == old(out[..])[..i] + ScrubToken(sql[i..]) + old(out[..])[next..]
    decreases |sql|, 1
  {
    hide Scrub;
    hide ScrubToken;
    hide FirstToken;
    hide Find;
    hide Occurs;
    hide TagLen;
    hide Blanked;
    hide BlockLen;
    hide LiteralLen;
    hide StartsWith;
    if StartsWith(sql[i..], "--") {
      var nl := Find(sql[i..], "\n");
      next := if nl == -1 then |sql| else i + nl;
      LineStep(sql, i, next);
      Blank(out, sql, i, next);
    } else if StartsWith(sql[i..], "/*") {
      next := SkipBlock(sql, i);
      BlockStep(sql, i, next);
      Blank(out, sql, i, next);
    } else if TagLen(sql[i..]) > 0 {
      next := ScrubQuotedBody(sql, out, i);
    } else if sql[i] == '\'' {
      next := SkipLiteral(sql, i);
      LiteralStep(sql, i, next);
      Blank(out, sql, i, next);
    } else if sql[i] == '"' {
      var q := Find(sql[i + 1..], "\"");
      next := if q == -1 then |sql| else i + q + 2;
      QuotedStep(sql, i, next);
      Copy(out, sql[i..next], i);
    } else {
      next := i + 1;
      PlainStep(sql, i);
      Copy(out, [sql[i]], i);
    }
  }

  /** The scrubber as the source writes it: one array, one moving index, recursion into bodies. */
  method ScrubSql(sql: string) returns (code: string)
    ensures code == Scrub(sql)
    decreases |sql|, 2
  {
    hide Scrub;
    hide ScrubToken;
    hide FirstToken;
    hide Scrubbed;
    var out := new char[|sql|];
    var i := 0;
    StartOfText(sql, out[..]);
    while i < |sql|
      invariant 0 <= i <= |sql|
      invariant Scrubbed(sql, out[..], i)
    {
      ghost var before := out[..];
      var next := ScrubAt(sql, out, i);
      Advance(sql, before, out[..], i, ScrubToken(sql[i..]));
      i := next;
    }
    code := out[..];
    EndOfText(sql, code, i);
  }
}
