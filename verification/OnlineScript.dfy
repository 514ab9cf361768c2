/**
 Parsing an online script: `parseOnlineScript` of scripts/_lib/online-track.ts.

 A line is either a step marker or text; the marker's regular expression is not modelled. The
 parser decides what the resume cursor can mean: every step it returns has a name of its own.
 */
module OnlineScript {
  import opened Basics
  import OnlineTrack

  datatype Line = Marker(name: string, repeatUntilZero: bool) | Text(text: string, blank: bool)

  /** A step as parsed: its body is the text lines up to the next marker. */
  datatype Section = Section(name: string, repeatUntilZero: bool, body: seq<Line>)

  datatype Parsed = Parsed(steps: seq<Section>) | NoSteps | DuplicateStep(name: string)

  predicate HasBody(body: seq<Line>) {
    exists k :: 0 <= k < |body| && body[k].Text? && !body[k].blank
  }

  /** The number of lines before the first marker. */
  function TextRun(lines: seq<Line>): (n: nat)
    ensures n <= |lines|
    ensures forall k :: 0 <= k < n ==> lines[k].Text?
    ensures n < |lines| ==> lines[n].Marker?
  {
    if lines == [] || lines[0].Marker? then 0 else 1 + TextRun(lines[1..])
  }

  /** The sections of a script, in order: each marker with the lines up to the next one. */
  function Sections(lines: seq<Line>): seq<Section>
    decreases |lines|
  {
    if lines == [] then []
    else if lines[0].Text? then Sections(lines[1..])
    else
      var n := TextRun(lines[1..]);
      [Section(lines[0].name, lines[0].repeatUntilZero, lines[1..n + 1])] + Sections(lines[n + 1..])
  }

  /** The sections that have anything to execute. */
  function Steps(lines: seq<Line>): seq<Section> {
    Kept(Sections(lines))
  }

  function Kept(sections: seq<Section>): seq<Section> {
    if sections == [] then []
    else (if HasBody(sections[0].body) then [sections[0]] else []) + Kept(sections[1..])
  }

  // ---------------------------------------------------------------- what a script means

  lemma {:induction false} TextRunIs(body: seq<Line>, rest: seq<Line>)
    requires (forall l :: l in body ==> l.Text?) && (rest == [] || rest[0].Marker?)
    ensures TextRun(body + rest) == |body|
  {
    if body == [] {
      assert body + rest == rest;
    } else {
      assert body[0] in body && (body + rest)[0] == body[0] && (body + rest)[1..] == body[1..] + rest;
      TextRunIs(body[1..], rest);
    }
  }

  /** Lines before the first marker are no step, whatever they say. */
  lemma {:induction false} PreludeIsDropped(prelude: seq<Line>, rest: seq<Line>)
    requires forall l :: l in prelude ==> l.Text?
    ensures Steps(prelude + rest) == Steps(rest)
    decreases |prelude|
  {
    if prelude == [] {
      assert prelude + rest == rest;
    } else {
      assert (prelude + rest)[1..] == prelude[1..] + rest;
      PreludeIsDropped(prelude[1..], rest);
    }
  }

  /** A marker and the lines after it are one step, with its name and flag, exactly when some line says something. */
  lemma {:induction false} SectionIsRead(name: string, repeatUntilZero: bool, body: seq<Line>, rest: seq<Line>)
    requires (forall l :: l in body ==> l.Text?) && (rest == [] || rest[0].Marker?)
    ensures Steps([Marker(name, repeatUntilZero)] + body + rest)
      == (if exists l :: l in body && !l.blank then [Section(name, repeatUntilZero, body)] else []) + Steps(rest)
  {
    var lines := [Marker(name, repeatUntilZero)] + body + rest;
    var n := |body|;
    TextRunIs(body, rest);
    assert lines[1..] == body + rest;
    assert lines[1..n + 1] == body && lines[n + 1..] == rest;
    KeptCons(Section(name, repeatUntilZero, body), Sections(rest));
    if l :| l in body && !l.blank {
      var k :| 0 <= k < |body| && body[k] == l;
      assert HasBody(body);
    }
  }

  ghost predicate DistinctNames(steps: seq<Section>) {
    forall j, k :: 0 <= j < k < |steps| ==> steps[j].name != steps[k].name
  }

  /** The steps read so far, with the section that is still open. */
  function Flushed(steps: seq<Section>, current: Option<Section>): seq<Section> {
    if current.Some? && HasBody(current.value.body) then steps + [current.value] else steps
  }

  /** What the rest of the lines adds when a section is open. */
  function Remaining(current: Option<Section>, rest: seq<Line>): seq<Section> {
    match current
    case None => Steps(rest)
    case Some(c) =>
      var n := TextRun(rest);
      Flushed([], Some(c.(body := c.body + rest[..n]))) + Steps(rest[n..])
  }

  lemma {:induction false} RemainingText(current: Option<Section>, rest: seq<Line>)
    requires rest != [] && rest[0].Text?
    ensures Remaining(current, rest)
         == Remaining(if current.Some? then Some(current.value.(body := current.value.body + [rest[0]])) else current, rest[1..])
  {
    if current.Some? {
      var n := TextRun(rest);
      assert n == TextRun(rest[1..]) + 1;
      hide Steps;
      hide TextRun;
      assert rest[..n] == [rest[0]] + rest[1..][..n - 1];
      assert rest[1..][n - 1..] == rest[n..];
      assert current.value.body + rest[..n] == current.value.body + [rest[0]] + rest[1..][..n - 1];
      assert Remaining(current, rest)
          == Remaining(Some(current.value.(body := current.value.body + [rest[0]])), rest[1..]);
    }
  }

  lemma {:induction false} RemainingMarker(current: Option<Section>, rest: seq<Line>)
    requires rest != [] && rest[0].Marker?
    ensures Remaining(current, rest)
         == Flushed([], current) + Remaining(Some(Section(rest[0].name, rest[0].repeatUntilZero, [])), rest[1..])
  {
    var open := Section(rest[0].name, rest[0].repeatUntilZero, []);
    var n := TextRun(rest[1..]);
    var full := open.(body := rest[1..][..n]);
    assert [] + rest[1..][..n] == rest[1..][..n];
    assert rest[1..n + 1] == rest[1..][..n];
    assert rest[n + 1..] == rest[1..][n..];
    KeptCons(full, Sections(rest[n + 1..]));
    assert Steps(rest) == Remaining(Some(open), rest[1..]);
    if current.Some? {
      assert rest[..0] == [] && rest[0..] == rest;
      assert current.value.body + [] == current.value.body;
    }
  }

  lemma {:induction false} KeptCons(c: Section, rest: seq<Section>)
    ensures Kept([c] + rest) == Flushed([], Some(c)) + Kept(rest)
  {
    assert ([c] + rest)[1..] == rest;
  }

  lemma {:induction false} JoinFlush(steps: seq<Section>, current: Option<Section>, rest: seq<Section>)
    ensures Flushed(steps, current) + rest == steps + (Flushed([], current) + rest)
  {
  }

  method ReadSections(lines: seq<Line>) returns (steps: seq<Section>)
    ensures steps == Steps(lines)
  {
    hide Remaining;
    hide Steps;
    steps := [];
    var current: Option<Section> := None;
    assert lines[0..] == lines;
    NothingOpen(lines);
    for i := 0 to |lines|
      invariant steps + Remaining(current, lines[i..]) == Steps(lines)
    {
      var line := lines[i];
      assert lines[i..][1..] == lines[i + 1..];
      if line.Marker? {
        RemainingMarker(current, lines[i..]);
        var next := Some(Section(line.name, line.repeatUntilZero, []));
        JoinFlush(steps, current, Remaining(next, lines[i + 1..]));
        steps := Flushed(steps, current);
        current := next;
        continue;
      }
      RemainingText(current, lines[i..]);
      if current.Some? {
        current := Some(current.value.(body := current.value.body + [line]));
      }
    }
    assert lines[|lines|..] == [];
    AtTheEnd(steps, current);
    steps := Flushed(steps, current);
  }

  lemma {:induction false} NothingOpen(lines: seq<Line>)
    ensures [] + Remaining(None, lines) == Steps(lines)
  {
  }

  /**
   The parser: it fails without steps and on a repeated name; otherwise its steps are the
   non-empty sections, and no two share a name.
   */
  method ParseOnlineScript(lines: seq<Line>) returns (r: Parsed)
    ensures r.NoSteps? <==> Steps(lines) == []
    ensures r.Parsed? <==> Steps(lines) != [] && DistinctNames(Steps(lines))
    ensures r.Parsed? ==> r.steps == Steps(lines)
    ensures r.DuplicateStep? ==> exists j, k :: 0 <= j < k < |Steps(lines)|
                                   && Steps(lines)[j].name == r.name == Steps(lines)[k].name
                                   && DistinctNames(Steps(lines)[..k])
  {
    hide Steps;
    var steps := ReadSections(lines);
    if |steps| == 0 {
      return NoSteps;
    }
    var seen: set<string> := {};
    for k := 0 to |steps|
      invariant DistinctNames(steps[..k])
      invariant forall name :: name in seen <==> exists j :: 0 <= j < k && steps[j].name == name
    {
      if steps[k].name in seen {
        return DuplicateStep(steps[k].name);
      }
      seen := seen + {steps[k].name};
    }
    assert steps[..|steps|] == steps;
    return Parsed(steps);
  }

  lemma {:induction false} AtTheEnd(steps: seq<Section>, current: Option<Section>)
    ensures steps + Remaining(current, []) == Flushed(steps, current)
  {
    if current.Some? {
      assert current.value.body + [] == current.value.body;
    }
  }

  /** In a parsed script the resume cursor is not ambiguous: a name finds its own step. */
  lemma {:induction false} ParsedCursorsAreExact<D(!new)>(sections: seq<Section>, steps: seq<OnlineTrack.Step<D>>, k: nat)
    requires DistinctNames(sections) && |steps| == |sections|
    requires forall j :: 0 <= j < |steps| ==> steps[j].name == sections[j].name
    requires k < |steps|
    ensures OnlineTrack.SkipTo(steps, sections[k].name) == k + 1
  {
    OnlineTrack.SkipToFinds(steps, k);
  }
}
