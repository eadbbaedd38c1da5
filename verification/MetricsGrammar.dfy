/**
 Which texts are read as which metrics, said on lines and words, and what the parser ignores.
 */
module MetricsGrammar {
  import opened Prelude
  import opened Metrics
  import opened Texts
  import opened MetricsText

  // ---------------------------------------------------------------------------------------------
  // White space
  // ---------------------------------------------------------------------------------------------

  /** The white space of ASCII and Latin-1. */
  lemma SpacesAre(c: char)
    ensures Space(c) <==> c in " \t\n\U{b}\U{c}\r\U{1c}\U{1d}\U{1e}\U{1f}\U{85}\U{a0}"
  {
  }

  predicate AllSpace(s: Text) {
    forall i | 0 <= i < |s| :: Space(s[i])
  }

  lemma {:induction false} StripLeftDrops(x: Text, s: Text)
    requires AllSpace(x)
    ensures StripLeft(x + s) == StripLeft(s)
    decreases |x|
  {
    if x == [] {
      assert x + s == s;
    } else {
      assert (x + s)[1..] == x[1..] + s;
      StripLeftDrops(x[1..], s);
    }
  }

  lemma {:induction false} StripRightDrops(s: Text, y: Text)
    requires AllSpace(y)
    ensures StripRight(s + y) == StripRight(s)
    decreases |y|
  {
    if y == [] {
      assert s + y == s;
    } else {
      assert (s + y)[..|s + y| - 1] == s + y[..|y| - 1];
      StripRightDrops(s, y[..|y| - 1]);
    }
  }

  lemma {:induction false} StripLeftKeeps(s: Text, y: Text)
    requires AllSpace(y)
    ensures StripRight(StripLeft(s + y)) == StripRight(StripLeft(s))
    decreases |s|
  {
    if s == [] {
      assert s + y == y && y + [] == y;
      StripLeftDrops(y, []);
    } else if Space(s[0]) {
      assert (s + y)[1..] == s[1..] + y;
      StripLeftKeeps(s[1..], y);
    } else {
      StripRightDrops(s, y);
    }
  }

  /** White space around the text is ignored. */
  lemma OuterSpaceIsIgnored(c: Codec, x: Text, text: Text, y: Text)
    requires AllSpace(x) && AllSpace(y)
    ensures ParseText(c, x + text + y) == ParseText(c, text)
  {
    assert x + text + y == x + (text + y);
    StripLeftDrops(x, text + y);
    StripLeftKeeps(text, y);
  }

  // ---------------------------------------------------------------------------------------------
  // Lines
  // ---------------------------------------------------------------------------------------------

  /** "#", "HELP", a name and at least one more word. */
  predicate IsHelp(line: Text, name: Text, help: Text) {
    && |Words(line)| >= 4 && Words(line)[..3] == ["#", "HELP", name]
    && help == Glue(Words(line)[3..], ' ')
  }

  /** "#", "TYPE", any word and the name of a type. */
  predicate IsType(line: Text, kind: MetricType) {
    |Words(line)| == 4 && Words(line)[0] == "#" && Words(line)[1] == "TYPE" && KindOf(Words(line)[3]) == Some(kind)
  }

  /** A label and a value that is a number and not negative; not a comment. */
  predicate IsSample(c: Codec, line: Text, s: Sample) {
    && line != [] && line[0] != '#'
    && |Words(line)| == 2 && WithoutEngine(Words(line)[0]) == s.series
    && c.parse(Words(line)[1]) == Some(s.value) && s.value >= 0.0
  }

  predicate StartsComment(lines: seq<Text>) {
    lines != [] && lines[0] != [] && lines[0][0] == '#'
  }

  /** Each sample has its line. */
  predicate AreSamples(c: Codec, lines: seq<Text>, xs: seq<Sample>) {
    |lines| == |xs| && forall j | 0 <= j < |xs| :: IsSample(c, lines[j], xs[j])
  }

  /** A help line, a type line and samples up to the next comment line, for each metric; the last may end after its help line. */
  predicate Reads(c: Codec, lines: seq<Text>, ms: seq<Metric>)
    decreases |ms|
  {
    if ms == [] then lines == []
    else
      lines != [] && IsHelp(lines[0], ms[0].name, ms[0].help) &&
      if |lines| == 1 then |ms| == 1 && ms[0].kind == Untyped && ms[0].samples == []
      else
        var end := 2 + |ms[0].samples|;
        && IsType(lines[1], ms[0].kind) && end <= |lines|
        && AreSamples(c, lines[2..end], ms[0].samples)
        && (end == |lines| || StartsComment(lines[end..]))
        && Reads(c, lines[end..], ms[1..])
  }

  lemma HelpIff(line: Text, name: Text, help: Text)
    ensures ParseHelp(line) == Some((name, help)) <==> IsHelp(line, name, help)
  {
    var parts := Words(line);
    if |parts| >= 4 { assert parts[..3] == [parts[0], parts[1], parts[2]]; }
  }

  lemma SampleIff(c: Codec, line: Text, s: Sample)
    requires line != [] && line[0] != '#'
    ensures ParseSample(c, line) == Some(s) <==> IsSample(c, line, s)
  {
  }

  /** The lines are these samples and then the rest, which is nothing or starts with a comment. */
  predicate BodyIs(c: Codec, lines: seq<Text>, xs: seq<Sample>, rest: seq<Text>) {
    && |lines| == |xs| + |rest| && AreSamples(c, lines[..|xs|], xs) && lines[|xs|..] == rest
    && (rest == [] || StartsComment(rest))
  }

  /** The body takes sample lines as long as they are samples, and stops at a comment or the end. */
  lemma {:induction false} BodyIff(c: Codec, lines: seq<Text>, before: seq<Sample>, xs: seq<Sample>, rest: seq<Text>)
    ensures ParseBody(c, lines, before) == Body(before + xs, rest) <==> BodyIs(c, lines, xs, rest)
    decreases |lines|
  {
    if lines == [] || StartsComment(lines) {
      BodyStops(c, lines, before, xs, rest);
    } else if lines[0] != [] {
      var s := ParseSample(c, lines[0]);
      if s.Some? {
        SampleIff(c, lines[0], s.value);
        BodyTakes(c, lines, before, xs, rest, s.value);
      } else {
        BodyFails(c, lines, xs);
      }
    } else {
      BodyFails(c, lines, xs);
    }
  }

  lemma BodyStops(c: Codec, lines: seq<Text>, before: seq<Sample>, xs: seq<Sample>, rest: seq<Text>)
    requires lines == [] || StartsComment(lines)
    ensures ParseBody(c, lines, before) == Body(before + xs, rest) <==> BodyIs(c, lines, xs, rest)
  {
    assert ParseBody(c, lines, before) == Body(before, lines);
    if before == before + xs { assert xs == []; }
    if xs == [] {
      assert before + xs == before && lines[0..] == lines;
    } else if |lines| >= |xs| {
      assert lines[..|xs|][0] == lines[0];
    }
  }

  lemma BodyFails(c: Codec, lines: seq<Text>, xs: seq<Sample>)
    requires lines != [] && !StartsComment(lines)
    requires lines[0] == [] || ParseSample(c, lines[0]) == None
    ensures |xs| <= |lines| ==> !(AreSamples(c, lines[..|xs|], xs) && (lines[|xs|..] == [] || StartsComment(lines[|xs|..])))
  {
    if xs == [] {
      assert lines[0..] == lines;
    } else if |xs| <= |lines| {
      assert lines[..|xs|][0] == lines[0];
      if lines[0] != [] { SampleIff(c, lines[0], xs[0]); }
    }
  }

  lemma BodyTakes(c: Codec, lines: seq<Text>, before: seq<Sample>, xs: seq<Sample>, rest: seq<Text>, s: Sample)
    requires lines != [] && IsSample(c, lines[0], s) && ParseSample(c, lines[0]) == Some(s)
    ensures ParseBody(c, lines, before) == Body(before + xs, rest) <==> BodyIs(c, lines, xs, rest)
    decreases |lines|, 0
  {
    var after := ParseBody(c, lines[1..], before + [s]);
    assert ParseBody(c, lines, before) == after;
    BodyGrows(c, lines[1..], before + [s]);
    if xs == [] {
      assert lines[0..] == lines;
    } else {
      BodyIff(c, lines[1..], before + [s], xs[1..], rest);
      HeadSamples(c, lines, xs);
      if |xs| <= |lines| { assert lines[|xs|..] == lines[1..][|xs| - 1..]; }
      if xs[0] == s {
        assert before + [s] + xs[1..] == before + xs;
      }
      OneSample(c, lines[0], s, xs[0]);
      FirstOfRest(before, s, xs);
    }
  }

  lemma OneSample(c: Codec, line: Text, a: Sample, b: Sample)
    ensures IsSample(c, line, a) && IsSample(c, line, b) ==> a == b
  {
  }

  lemma FirstOfRest(before: seq<Sample>, s: Sample, xs: seq<Sample>)
    ensures before + [s] <= before + xs ==> xs != [] && xs[0] == s
  {
    if before + [s] <= before + xs { assert (before + xs)[|before|] == s; }
  }

  lemma HeadSamples(c: Codec, lines: seq<Text>, xs: seq<Sample>)
    requires xs != [] && lines != []
    ensures |xs| <= |lines| ==>
              (AreSamples(c, lines[..|xs|], xs) <==> IsSample(c, lines[0], xs[0]) && AreSamples(c, lines[1..][..|xs| - 1], xs[1..]))
  {
    if |xs| <= |lines| {
      var here, tail := lines[..|xs|], lines[1..][..|xs| - 1];
      assert forall j | 0 <= j < |xs| - 1 :: tail[j] == here[j + 1];
      if IsSample(c, lines[0], xs[0]) && AreSamples(c, tail, xs[1..]) {
        forall j | 0 <= j < |xs| ensures IsSample(c, here[j], xs[j]) {
          if j > 0 { assert IsSample(c, tail[j - 1], xs[1..][j - 1]); }
        }
      }
    }
  }

  /** What was collected before stays in front. */
  lemma {:induction false} BodyGrows(c: Codec, lines: seq<Text>, before: seq<Sample>)
    ensures ParseBody(c, lines, before).Body? ==> before <= ParseBody(c, lines, before).samples
    decreases |lines|
  {
    if lines != [] && lines[0] != [] && lines[0][0] != '#' {
      var s := ParseSample(c, lines[0]);
      if s.Some? { BodyGrows(c, lines[1..], before + [s.value]); }
    }
  }

  lemma FirstMetricOff(c: Codec, lines: seq<Text>, m: Metric, rest: seq<Text>, before: seq<Metric>)
    requires |lines| >= 2 && IsHelp(lines[0], m.name, m.help) && IsType(lines[1], m.kind) && BodyIs(c, lines[2..], m.samples, rest)
    ensures ParseLines(c, lines, before) == ParseLines(c, rest, before + [m])
  {
    HelpIff(lines[0], m.name, m.help);
    BodyIff(c, lines[2..], [], m.samples, rest);
    assert [] + m.samples == m.samples;
  }

  /** What is read is a text of that form. */
  lemma {:induction false} FormIsRead(c: Codec, lines: seq<Text>, ms: seq<Metric>, before: seq<Metric>)
    requires Reads(c, lines, ms)
    ensures ParseLines(c, lines, before) == Parsed(before + ms)
    decreases |ms|
  {
    if ms == [] {
      assert before + ms == before;
    } else if |lines| == 1 {
      HelpIff(lines[0], ms[0].name, ms[0].help);
      assert ms == [Metric(ms[0].name, ms[0].help, Untyped, [])];
    } else {
      var end := 2 + |ms[0].samples|;
      assert lines[2..][..end - 2] == lines[2..end] && lines[2..][end - 2..] == lines[end..];
      FirstMetricOff(c, lines, ms[0], lines[end..], before);
      FormIsRead(c, lines[end..], ms[1..], before + [ms[0]]);
      assert before + [ms[0]] + ms[1..] == before + ms;
    }
  }

  lemma {:induction false} LinesGrow(c: Codec, lines: seq<Text>, before: seq<Metric>)
    ensures ParseLines(c, lines, before).Parsed? ==> before <= ParseLines(c, lines, before).metrics
    decreases |lines|
  {
    if |lines| > 1 {
      var help, kind := ParseHelp(lines[0]), ParseType(lines[1]);
      if help.Some? && kind.Some? {
        var body := ParseBody(c, lines[2..], []);
        if body.Body? {
          LinesGrow(c, body.rest, before + [Metric(help.value.0, help.value.1, kind.value, body.samples)]);
        }
      }
    }
  }

  /** A parse that goes on has read one metric of the form. */
  lemma OneRead(c: Codec, lines: seq<Text>, before: seq<Metric>) returns (m: Metric, rest: seq<Text>)
    requires |lines| >= 2 && ParseLines(c, lines, before).Parsed?
    ensures IsHelp(lines[0], m.name, m.help) && IsType(lines[1], m.kind) && BodyIs(c, lines[2..], m.samples, rest)
    ensures ParseLines(c, lines, before) == ParseLines(c, rest, before + [m])
  {
    var help := ParseHelp(lines[0]).value;
    var body := ParseBody(c, lines[2..], []);
    HelpIff(lines[0], help.0, help.1);
    m, rest := Metric(help.0, help.1, ParseType(lines[1]).value, body.samples), body.rest;
    assert [] + body.samples == body.samples;
    BodyIff(c, lines[2..], [], body.samples, body.rest);
  }

  lemma FormOfOne(c: Codec, lines: seq<Text>, m: Metric, rest: seq<Text>, more: seq<Metric>)
    requires |lines| >= 2 && IsHelp(lines[0], m.name, m.help) && IsType(lines[1], m.kind) && BodyIs(c, lines[2..], m.samples, rest)
    requires Reads(c, rest, more)
    ensures Reads(c, lines, [m] + more)
  {
    var end := 2 + |m.samples|;
    assert lines[2..][..end - 2] == lines[2..end] && lines[2..][end - 2..] == lines[end..];
    assert ([m] + more)[1..] == more;
  }

  lemma SplitsOff(before: seq<Metric>, m: Metric, ms: seq<Metric>)
    requires before + [m] <= before + ms
    ensures ms == [m] + ms[1..] && before + ms == before + [m] + ms[1..]
  {
    assert (before + ms)[|before|] == m;
  }

  /** And every text that is read has the form. */
  lemma {:induction false} ReadHasForm(c: Codec, lines: seq<Text>, ms: seq<Metric>, before: seq<Metric>)
    requires ParseLines(c, lines, before) == Parsed(before + ms)
    ensures Reads(c, lines, ms)
    decreases |lines|
  {
    if lines == [] {
      assert ms == [] by { assert before == before + ms; }
    } else if |lines| == 1 {
      var help := ParseHelp(lines[0]).value;
      HelpIff(lines[0], help.0, help.1);
      assert (before + ms)[|before|..] == ms;
      assert before + ms == before + [Metric(help.0, help.1, Untyped, [])];
    } else {
      var m, rest := OneRead(c, lines, before);
      LinesGrow(c, rest, before + [m]);
      SplitsOff(before, m, ms);
      ReadHasForm(c, rest, ms[1..], before + [m]);
      FormOfOne(c, lines, m, rest, ms[1..]);
    }
  }

  /**
   A text is read as these metrics if and only if, without outer white space, its lines are a help line, a
   type line and samples for each of them in order. Everything else is refused.
   */
  lemma ReadIff(c: Codec, text: Text, ms: seq<Metric>)
    ensures ParseText(c, text) == Parsed(ms) <==> Reads(c, Split(Strip(text), '\n'), ms)
  {
    var lines := Split(Strip(text), '\n');
    assert [] + ms == ms;
    if ParseText(c, text) == Parsed(ms) { ReadHasForm(c, lines, ms, []); }
    if Reads(c, lines, ms) { FormIsRead(c, lines, ms, []); }
  }

  // ---------------------------------------------------------------------------------------------
  // The two ways to fail
  // ---------------------------------------------------------------------------------------------

  /** Line j is empty, and only sample lines stand before it. */
  predicate EmptyAt(c: Codec, lines: seq<Text>, j: nat) {
    && j < |lines| && lines[j] == []
    && forall i | 0 <= i < j :: lines[i] != [] && lines[i][0] != '#' && ParseSample(c, lines[i]).Some?
  }

  lemma EmptyAtTail(c: Codec, lines: seq<Text>, j: nat)
    requires lines != [] && lines[0] != [] && lines[0][0] != '#' && ParseSample(c, lines[0]).Some?
    ensures EmptyAt(c, lines, j + 1) <==> EmptyAt(c, lines[1..], j)
  {
    if EmptyAt(c, lines, j + 1) {
      assert forall i | 0 <= i < j :: lines[1..][i] == lines[i + 1];
    }
  }

  /** An empty line where a sample is expected raises an index error; no other line does. */
  lemma {:induction false} BodyRaisesIff(c: Codec, lines: seq<Text>, before: seq<Sample>)
    ensures ParseBody(c, lines, before) == BodyRaised <==> exists j: nat :: EmptyAt(c, lines, j)
    decreases |lines|
  {
    if lines == [] || lines[0] == [] || lines[0][0] == '#' || ParseSample(c, lines[0]) == None {
      if lines != [] && lines[0] == [] { assert EmptyAt(c, lines, 0); }
    } else {
      BodyRaisesIff(c, lines[1..], before + [ParseSample(c, lines[0]).value]);
      if j: nat :| EmptyAt(c, lines, j) { EmptyAtTail(c, lines, j - 1); }
      if j: nat :| EmptyAt(c, lines[1..], j) { EmptyAtTail(c, lines, j); }
    }
  }

  // ---------------------------------------------------------------------------------------------
  // The engine sub-label
  // ---------------------------------------------------------------------------------------------

  predicate AllDigits(s: Text) {
    forall i | 0 <= i < |s| :: '0' <= s[i] <= '9'
  }

  lemma {:induction false} DigitsOf(d: Text, rest: Text)
    requires AllDigits(d) && (rest == [] || !('0' <= rest[0] <= '9'))
    ensures Digits(d + rest) == |d|
    decreases |d|
  {
    if d == [] {
      assert d + rest == rest;
    } else {
      assert (d + rest)[1..] == d[1..] + rest;
      DigitsOf(d[1..], rest);
    }
  }

  lemma {:induction false} DigitsAreDigits(s: Text)
    ensures AllDigits(s[..Digits(s)])
  {
    if s != [] && '0' <= s[0] <= '9' {
      DigitsAreDigits(s[1..]);
      assert s[..Digits(s)] == [s[0]] + s[1..][..Digits(s[1..])];
    }
  }

  /** A sub-label is found exactly where engine="<digits>", stands, and its length is that of the whole. */
  lemma EngineIs(d: Text, rest: Text)
    requires d != [] && AllDigits(d)
    ensures Engine("engine=\"" + d + "\"," + rest) == |"engine=\"" + d + "\","|
  {
    var s := "engine=\"" + d + "\"," + rest;
    assert s[|ENGINE|..] == d + ("\"," + rest);
    assert ENGINE <= s;
    DigitsOf(d, "\"," + rest);
    assert s[|ENGINE| + |d|..] == "\"," + rest;
  }

  lemma EngineIsOnly(s: Text)
    requires Engine(s) > 0
    ensures |ENGINE| < Engine(s) - 2 && s[..Engine(s)] == "engine=\"" + s[|ENGINE|..Engine(s) - 2] + "\","
    ensures AllDigits(s[|ENGINE|..Engine(s) - 2])
  {
    var d := Digits(s[|ENGINE|..]);
    DigitsAreDigits(s[|ENGINE|..]);
    assert s[|ENGINE|..][..d] == s[|ENGINE|..Engine(s) - 2];
    var rest := s[|ENGINE| + d..];
    assert rest[..2] == "\"," && s[|ENGINE| + d..Engine(s)] == rest[..2];
    assert s[..Engine(s)] == s[..|ENGINE|] + s[|ENGINE|..|ENGINE| + d] + s[|ENGINE| + d..Engine(s)];
  }

  lemma HeadStays(s: Text)
    requires s != [] && Engine(s) == 0
    ensures WithoutEngine(s) == [s[0]] + WithoutEngine(s[1..])
  {
  }

  lemma {:induction false} FrontStays(a: Text, b: Text)
    requires forall j | 0 <= j < |a| :: Engine((a + b)[j..]) == 0
    ensures WithoutEngine(a + b) == a + WithoutEngine(b)
    decreases |a|
  {
    if a == [] {
      assert a + b == b;
    } else {
      FrontTail(a, b);
      HeadStays(a + b);
      FrontStays(a[1..], b);
      FrontJoins(a, b);
    }
  }

  lemma FrontTail(a: Text, b: Text)
    requires a != [] && forall j | 0 <= j < |a| :: Engine((a + b)[j..]) == 0
    ensures (a + b)[1..] == a[1..] + b && Engine(a + b) == 0
    ensures forall j | 0 <= j < |a[1..]| :: Engine((a[1..] + b)[j..]) == 0
  {
    assert (a + b)[0..] == a + b;
    forall j | 0 <= j < |a[1..]| ensures Engine((a[1..] + b)[j..]) == 0 {
      assert (a[1..] + b)[j..] == (a + b)[j + 1..];
    }
  }

  lemma FrontJoins(a: Text, b: Text)
    requires a != []
    ensures [(a + b)[0]] + (a[1..] + WithoutEngine(b)) == a + WithoutEngine(b)
  {
  }

  /** The first sub-label goes, what stands before it stays, and the rest is treated the same way. */
  lemma FirstEngineGoes(a: Text, b: Text)
    requires Engine(b) > 0 && forall j | 0 <= j < |a| :: Engine((a + b)[j..]) == 0
    ensures WithoutEngine(a + b) == a + WithoutEngine(b[Engine(b)..])
  {
    FrontStays(a, b);
  }

  // ---------------------------------------------------------------------------------------------
  // Types
  // ---------------------------------------------------------------------------------------------

  /** The texts differ at most in the case of their letters. */
  predicate SameLetters(s: Text, t: Text) {
    |s| == |t| &&
    forall i | 0 <= i < |s| :: s[i] == t[i] || ('A' <= s[i] <= 'Z' && t[i] == s[i] - 'A' + 'a') || ('A' <= t[i] <= 'Z' && s[i] == t[i] - 'A' + 'a')
  }

  lemma UpperIff(s: Text, name: Text)
    requires forall i | 0 <= i < |name| :: 'A' <= name[i] <= 'Z'
    ensures Upper(s) == name <==> SameLetters(s, name)
  {
    if SameLetters(s, name) {
      assert forall i | 0 <= i < |s| :: Upper(s)[i] == name[i];
    }
    if Upper(s) == name {
      forall i | 0 <= i < |s| ensures s[i] == name[i] || ('A' <= name[i] <= 'Z' && s[i] == name[i] - 'A' + 'a') {
        assert Upper(s)[i] == name[i];
      }
    }
  }

  /** A type is known by its name in any case; the name of the untyped one is NONE. */
  lemma KindIff(s: Text)
    ensures KindOf(s) == Some(Gauge) <==> SameLetters(s, "GAUGE")
    ensures KindOf(s) == Some(Counter) <==> SameLetters(s, "COUNTER")
    ensures KindOf(s) == Some(Histogram) <==> SameLetters(s, "HISTOGRAM")
    ensures KindOf(s) == Some(Summary) <==> SameLetters(s, "SUMMARY")
    ensures KindOf(s) == Some(Untyped) <==> SameLetters(s, "NONE")
  {
    UpperIff(s, "GAUGE");
    UpperIff(s, "COUNTER");
    UpperIff(s, "HISTOGRAM");
    UpperIff(s, "SUMMARY");
    UpperIff(s, "NONE");
  }
}
