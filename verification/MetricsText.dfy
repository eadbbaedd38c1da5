/**
 The text form of metrics: a printer, and a line parser that also removes the engine sub-label.
 How a value is printed and read is a parameter.
 */
module MetricsText {
  import opened Prelude
  import opened Metrics
  import opened Texts

  // ---------------------------------------------------------------------------------------------
  // Words and lines
  // ---------------------------------------------------------------------------------------------

  predicate Space(c: char) {
    c == ' ' || '\t' <= c <= '\r' || '\U{1c}' <= c <= '\U{1f}' || c == '\U{85}' || c == '\U{a0}'
  }

  predicate Solid(s: Text) {
    s != [] && forall i | 0 <= i < |s| :: !Space(s[i])
  }

  /** The length of the run of non-space characters at the start. */
  function Run(s: Text): (n: nat)
    ensures n <= |s|
    ensures forall i | 0 <= i < n :: !Space(s[i])
    ensures n < |s| ==> Space(s[n])
  {
    if s == [] || Space(s[0]) then 0 else 1 + Run(s[1..])
  }

  /** Splitting at runs of white space. */
  function Words(s: Text): seq<Text>
    decreases |s|
  {
    if s == [] then []
    else if Space(s[0]) then Words(s[1..])
    else [s[..Run(s)]] + Words(s[Run(s)..])
  }

  function StripLeft(s: Text): Text {
    if s != [] && Space(s[0]) then StripLeft(s[1..]) else s
  }

  function StripRight(s: Text): Text {
    if s != [] && Space(s[|s| - 1]) then StripRight(s[..|s| - 1]) else s
  }

  function Strip(s: Text): Text {
    StripRight(StripLeft(s))
  }

  lemma {:induction false} RunOfConcat(a: Text, b: Text)
    requires a != [] && !Space(a[0])
    requires Run(a) < |a| || b == [] || Space(b[0])
    ensures Run(a + b) == Run(a)
    decreases |a|
  {
    assert (a + b)[1..] == a[1..] + b;
    if |a| == 1 {
      assert a[1..] + b == b;
    } else if !Space(a[1]) {
      RunOfConcat(a[1..], b);
    }
  }

  lemma SliceOfConcat(a: Text, c: char, b: Text, n: nat)
    requires n <= |a|
    ensures var s := a + [c] + b; s[..n] == a[..n] && s[n..] == a[n..] + [c] + b
  {
  }

  /** Any white space separates: words do not cross it. */
  lemma {:induction false} WordsSeparated(a: Text, c: char, b: Text)
    requires Space(c)
    ensures Words(a + [c] + b) == Words(a) + Words(b)
    decreases |a|
  {
    var s := a + [c] + b;
    if a == [] {
      assert s[0] == c && s[1..] == b;
    } else if Space(a[0]) {
      assert s[1..] == a[1..] + [c] + b;
      WordsSeparated(a[1..], c, b);
    } else {
      assert s == a + ([c] + b);
      RunOfConcat(a, [c] + b);
      var n := Run(a);
      SliceOfConcat(a, c, b, n);
      WordsSeparated(a[n..], c, b);
    }
  }

  lemma WordsConcat(a: Text, b: Text)
    ensures Words(a + [' '] + b) == Words(a) + Words(b)
  {
    WordsSeparated(a, ' ', b);
  }

  lemma OneWord(w: Text)
    requires Solid(w)
    ensures Words(w) == [w]
  {
    assert Run(w) == |w|;
    assert w[..|w|] == w && w[|w|..] == [];
  }

  lemma {:induction false} WordsAreSolid(s: Text)
    ensures forall i | 0 <= i < |Words(s)| :: Solid(Words(s)[i])
    decreases |s|
  {
    if s != [] {
      if Space(s[0]) { WordsAreSolid(s[1..]); } else { WordsAreSolid(s[Run(s)..]); }
    }
  }

  lemma {:induction false} JoinedIsOneLine(parts: seq<Text>)
    requires forall i | 0 <= i < |parts| :: Free(parts[i], '\n')
    ensures Free(Glue(parts, ' '), '\n')
    decreases |parts|
  {
    if |parts| > 1 { JoinedIsOneLine(parts[1..]); }
  }

  // ---------------------------------------------------------------------------------------------
  // The engine sub-label
  // ---------------------------------------------------------------------------------------------

  const ENGINE: Text := "engine=\""

  function Digits(s: Text): (n: nat)
    ensures n <= |s|
  {
    if s != [] && '0' <= s[0] <= '9' then 1 + Digits(s[1..]) else 0
  }

  /** The length of engine="<digits>", at the start of the text, or 0. */
  function Engine(s: Text): (n: nat)
    ensures n <= |s|
  {
    if !(ENGINE <= s) then 0
    else
      var d := Digits(s[|ENGINE|..]);
      var rest := s[|ENGINE| + d..];
      if d > 0 && "\"," <= rest then |ENGINE| + d + 2 else 0
  }

  /** All occurrences, from the left, are removed. */
  function WithoutEngine(s: Text): Text
    decreases |s|
  {
    if s == [] then []
    else if Engine(s) > 0 then WithoutEngine(s[Engine(s)..])
    else [s[0]] + WithoutEngine(s[1..])
  }

  predicate HasEngine(s: Text) {
    exists i :: 0 <= i < |s| && Engine(s[i..]) > 0
  }

  lemma {:induction false} WithoutEngineShrinks(s: Text)
    ensures |WithoutEngine(s)| <= |s|
    ensures WithoutEngine(s) == s <==> !HasEngine(s)
    decreases |s|
  {
    if s != [] {
      assert s[0..] == s;
      if Engine(s) > 0 {
        WithoutEngineShrinks(s[Engine(s)..]);
      } else {
        WithoutEngineShrinks(s[1..]);
        HeadAndTail(s, WithoutEngine(s[1..]));
        HasEngineTail(s);
      }
    }
  }

  lemma HeadAndTail(s: Text, tail: Text)
    requires s != []
    ensures [s[0]] + tail == s <==> tail == s[1..]
  {
    if [s[0]] + tail == s { assert ([s[0]] + tail)[1..] == tail; }
    if tail == s[1..] { assert [s[0]] + s[1..] == s; }
  }

  lemma HasEngineTail(s: Text)
    requires s != [] && Engine(s) == 0
    ensures HasEngine(s) <==> HasEngine(s[1..])
  {
    assert s[0..] == s;
    if HasEngine(s) {
      var i :| 0 <= i < |s| && Engine(s[i..]) > 0;
      assert s[1..][i - 1..] == s[i..];
    }
    if HasEngine(s[1..]) {
      var i :| 0 <= i < |s[1..]| && Engine(s[1..][i..]) > 0;
      assert s[1..][i..] == s[i + 1..];
    }
  }

  // ---------------------------------------------------------------------------------------------
  // Parser
  // ---------------------------------------------------------------------------------------------

  /** How a value is written, and read back if it can be. */
  datatype Codec = Codec(show: real -> Text, parse: Text -> Option<real>)

  function Upper(s: Text): Text {
    seq(|s|, i requires 0 <= i < |s| => if 'a' <= s[i] <= 'z' then s[i] - 'a' + 'A' else s[i])
  }

  function KindText(k: MetricType): Text {
    match k
    case Gauge => "gauge"
    case Counter => "counter"
    case Histogram => "histogram"
    case Summary => "summary"
    case Untyped => ""
  }

  /** Looking a type up by its upper-case name, where the name of the untyped one is NONE. */
  function KindOf(s: Text): Option<MetricType> {
    var u := Upper(s);
    if u == "GAUGE" then Some(Gauge)
    else if u == "COUNTER" then Some(Counter)
    else if u == "HISTOGRAM" then Some(Histogram)
    else if u == "SUMMARY" then Some(Summary)
    else if u == "NONE" then Some(Untyped)
    else None
  }

  function ParseHelp(line: Text): Option<(Text, Text)> {
    var parts := Words(line);
    if |parts| >= 4 && parts[0] == "#" && parts[1] == "HELP" then Some((parts[2], Glue(parts[3..], ' '))) else None
  }

  function ParseType(line: Text): Option<MetricType> {
    var parts := Words(line);
    if |parts| == 4 && parts[0] == "#" && parts[1] == "TYPE" then KindOf(parts[3]) else None
  }

  function ParseSample(c: Codec, line: Text): Option<Sample> {
    var parts := Words(line);
    if |parts| != 2 then None
    else
      var value := c.parse(parts[1]);
      if value.Some? && value.value >= 0.0 then Some(Sample(WithoutEngine(parts[0]), value.value)) else None
  }

  /** Rejected is the empty result with an error; Raised is the index error of an empty body line. */
  datatype Outcome = Parsed(metrics: seq<Metric>) | Rejected | Raised

  datatype Body = Body(samples: seq<Sample>, rest: seq<Text>) | BodyRejected | BodyRaised

  function ParseBody(c: Codec, lines: seq<Text>, samples: seq<Sample>): (b: Body)
    ensures b.Body? ==> |b.rest| <= |lines|
  {
    if lines == [] then Body(samples, [])
    else if lines[0] == [] then BodyRaised
    else if lines[0][0] == '#' then Body(samples, lines)
    else
      var s := ParseSample(c, lines[0]);
      if s == None then BodyRejected else ParseBody(c, lines[1..], samples + [s.value])
  }

  function ParseLines(c: Codec, lines: seq<Text>, metrics: seq<Metric>): Outcome
    decreases |lines|
  {
    if lines == [] then Parsed(metrics)
    else
      var help := ParseHelp(lines[0]);
      if help == None then Rejected
      else if |lines| == 1 then Parsed(metrics + [Metric(help.value.0, help.value.1, Untyped, [])])
      else
        var kind := ParseType(lines[1]);
        if kind == None then Rejected
        else
          var body := ParseBody(c, lines[2..], []);
          match body
          case BodyRejected => Rejected
          case BodyRaised => Raised
          case Body(samples, rest) =>
            ParseLines(c, rest, metrics + [Metric(help.value.0, help.value.1, kind.value, samples)])
  }

  function ParseText(c: Codec, text: Text): Outcome {
    ParseLines(c, Split(Strip(text), '\n'), [])
  }

  /** The inner loop: sample lines up to the next comment. */
  method ParseMetricBody(c: Codec, lines: seq<Text>, start: nat) returns (body: Body, i: nat)
    requires start <= |lines|
    ensures start <= i <= |lines| && body == ParseBody(c, lines[start..], [])
    ensures body.Body? ==> body.rest == lines[i..]
  {
    i := start;
    var samples := [];
    while i < |lines| && lines[i] != [] && lines[i][0] != '#'
      invariant start <= i <= |lines|
      invariant ParseBody(c, lines[start..], []) == ParseBody(c, lines[i..], samples)
      decreases |lines| - i
    {
      assert lines[i..][0] == lines[i] && lines[i..][1..] == lines[i + 1..];
      var sample := ParseSample(c, lines[i]);
      if sample == None {
        return BodyRejected, i;
      }
      samples := samples + [sample.value];
      i := i + 1;
    }
    assert i < |lines| ==> lines[i..][0] == lines[i];
    body := if i < |lines| && lines[i] == [] then BodyRaised else Body(samples, lines[i..]);
  }

  method ParseMetricText(c: Codec, text: Text) returns (outcome: Outcome)
    ensures outcome == ParseText(c, text)
  {
    var lines := Split(Strip(text), '\n');
    var metrics := [];
    var i := 0;
    assert lines[0..] == lines;
    while i < |lines|
      invariant 0 <= i <= |lines|
      invariant ParseLines(c, lines, []) == ParseLines(c, lines[i..], metrics)
      decreases |lines| - i
    {
      ghost var here := lines[i..];
      assert here[0] == lines[i];
      var help := ParseHelp(lines[i]);
      if help == None {
        return Rejected;
      }
      if i + 1 == |lines| {
        metrics := metrics + [Metric(help.value.0, help.value.1, Untyped, [])];
        i := i + 1;
      } else {
        assert here[1] == lines[i + 1] && here[2..] == lines[i + 2..];
        var kind := ParseType(lines[i + 1]);
        if kind == None {
          return Rejected;
        }
        var body;
        body, i := ParseMetricBody(c, lines, i + 2);
        match body
        case BodyRejected => return Rejected;
        case BodyRaised => return Raised;
        case Body(samples, rest) =>
          metrics := metrics + [Metric(help.value.0, help.value.1, kind.value, samples)];
      }
    }
    outcome := Parsed(metrics);
  }

  // ---------------------------------------------------------------------------------------------
  // Printer
  // ---------------------------------------------------------------------------------------------

  function HelpLine(m: Metric): Text {
    "#" + [' '] + ("HELP" + [' '] + (m.name + [' '] + m.help))
  }

  function TypeLine(m: Metric): Text {
    "#" + [' '] + ("TYPE" + [' '] + (m.name + [' '] + KindText(m.kind)))
  }

  function SampleLine(c: Codec, s: Sample): Text {
    s.series + [' '] + c.show(s.value)
  }

  function SampleLines(c: Codec, xs: seq<Sample>): seq<Text> {
    if xs == [] then [] else [SampleLine(c, xs[0])] + SampleLines(c, xs[1..])
  }

  function MetricLines(c: Codec, ms: seq<Metric>): seq<Text> {
    if ms == [] then []
    else [HelpLine(ms[0]), TypeLine(ms[0])] + SampleLines(c, ms[0].samples) + MetricLines(c, ms[1..])
  }

  function Serialize(c: Codec, ms: seq<Metric>): Text {
    Glue(MetricLines(c, ms), '\n')
  }

  method SerializeMetrics(c: Codec, ms: seq<Metric>) returns (text: Text)
    ensures text == Serialize(c, ms)
  {
    var lines := [];
    for i := 0 to |ms|
      invariant lines + MetricLines(c, ms[i..]) == MetricLines(c, ms)
    {
      assert ms[i..][0] == ms[i] && ms[i..][1..] == ms[i + 1..];
      var body := SerializeSamples(c, ms[i].samples);
      lines := lines + ([HelpLine(ms[i]), TypeLine(ms[i])] + body);
    }
    assert ms[|ms|..] == [] && lines + [] == lines;
    text := Glue(lines, '\n');
  }

  method SerializeSamples(c: Codec, xs: seq<Sample>) returns (lines: seq<Text>)
    ensures lines == SampleLines(c, xs)
  {
    lines := [];
    for j := 0 to |xs|
      invariant lines + SampleLines(c, xs[j..]) == SampleLines(c, xs)
    {
      assert xs[j..][0] == xs[j] && xs[j..][1..] == xs[j + 1..];
      lines := lines + [SampleLine(c, xs[j])];
    }
    assert xs[|xs|..] == [] && lines + [] == lines;
  }

  // ---------------------------------------------------------------------------------------------
  // Round trip
  // ---------------------------------------------------------------------------------------------

  /** A value whose text is one word that reads back as the value. */
  predicate Readable(c: Codec, v: real) {
    Solid(c.show(v)) && c.parse(c.show(v)) == Some(v)
  }

  /** The label is one word, and the value is not negative. */
  predicate SampleWell(c: Codec, s: Sample) {
    Solid(s.series) && s.value >= 0.0 && Readable(c, s.value)
  }

  /** The label starts like a comment line. */
  predicate Hashed(s: Sample) {
    s.series != [] && s.series[0] == '#'
  }

  predicate NoneHashed(xs: seq<Sample>) {
    forall i | 0 <= i < |xs| :: !Hashed(xs[i])
  }

  predicate NoHashes(ms: seq<Metric>) {
    forall i | 0 <= i < |ms| :: NoneHashed(ms[i].samples)
  }

  predicate WellFormed(c: Codec, m: Metric) {
    && Solid(m.name)
    && Words(m.help) != [] && Glue(Words(m.help), ' ') == m.help
    && m.kind != Untyped
    && forall i | 0 <= i < |m.samples| :: SampleWell(c, m.samples[i])
  }

  /** The same metric with the engine sub-label removed from every label. */
  function CleanSamples(xs: seq<Sample>): seq<Sample> {
    seq(|xs|, i requires 0 <= i < |xs| => xs[i].(series := WithoutEngine(xs[i].series)))
  }

  function Clean(ms: seq<Metric>): seq<Metric> {
    seq(|ms|, i requires 0 <= i < |ms| => ms[i].(samples := CleanSamples(ms[i].samples)))
  }

  lemma ThreeWords(a: Text, b: Text, w: Text, rest: Text)
    requires Solid(a) && Solid(b) && Solid(w)
    ensures Words(a + [' '] + (b + [' '] + (w + [' '] + rest))) == [a, b, w] + Words(rest)
  {
    WordsConcat(a, b + [' '] + (w + [' '] + rest));
    WordsConcat(b, w + [' '] + rest);
    WordsConcat(w, rest);
    OneWord(a);
    OneWord(b);
    OneWord(w);
  }

  lemma HelpReadsBack(c: Codec, m: Metric)
    requires WellFormed(c, m)
    ensures ParseHelp(HelpLine(m)) == Some((m.name, m.help)) && Free(HelpLine(m), '\n')
  {
    ThreeWords("#", "HELP", m.name, m.help);
    var parts := Words(HelpLine(m));
    assert parts[3..] == Words(m.help);
    WordsAreSolid(m.help);
    forall i | 0 <= i < |Words(m.help)| ensures Free(Words(m.help)[i], '\n') {
      assert Solid(Words(m.help)[i]);
    }
    JoinedIsOneLine(Words(m.help));
    SolidIsOneLine(m.name);
  }

  lemma SolidIsOneLine(s: Text)
    requires Solid(s)
    ensures Free(s, '\n') && s != [] && !Space(s[0]) && !Space(s[|s| - 1])
  {
  }

  lemma KindReadsBack(k: MetricType)
    requires k != Untyped
    ensures KindOf(KindText(k)) == Some(k) && Solid(KindText(k))
  {
    assert Upper("gauge") == "GAUGE" && Upper("counter") == "COUNTER";
    assert Upper("histogram") == "HISTOGRAM" && Upper("summary") == "SUMMARY";
  }

  lemma TypeIsOneLine(name: Text, kind: Text)
    requires Solid(name) && Solid(kind)
    ensures var line := "#" + [' '] + ("TYPE" + [' '] + (name + [' '] + kind));
            Free(line, '\n') && !Space(line[|line| - 1])
  {
    SolidIsOneLine(name);
    SolidIsOneLine(kind);
  }

  lemma TypeReadsBack(c: Codec, m: Metric)
    requires WellFormed(c, m)
    ensures ParseType(TypeLine(m)) == Some(m.kind) && Free(TypeLine(m), '\n') && !Space(TypeLine(m)[|TypeLine(m)| - 1])
  {
    var kind := KindText(m.kind);
    KindReadsBack(m.kind);
    TypeIsOneLine(m.name, kind);
    assert Words(TypeLine(m)) == ["#", "TYPE", m.name, kind] by {
      ThreeWords("#", "TYPE", m.name, kind);
      OneWord(kind);
    }
  }

  lemma SampleReadsBack(c: Codec, s: Sample)
    requires SampleWell(c, s)
    ensures ParseSample(c, SampleLine(c, s)) == Some(s.(series := WithoutEngine(s.series)))
    ensures var line := SampleLine(c, s); Free(line, '\n') && line != [] && (line[0] == '#' <==> Hashed(s)) && !Space(line[|line| - 1])
  {
    WordsConcat(s.series, c.show(s.value));
    OneWord(s.series);
    OneWord(c.show(s.value));
    SolidIsOneLine(s.series);
    SolidIsOneLine(c.show(s.value));
  }

  /** One sample line is taken off the body. */
  lemma SampleTakenOff(c: Codec, s: Sample, rest: seq<Text>, samples: seq<Sample>)
    requires SampleWell(c, s) && !Hashed(s)
    ensures ParseBody(c, [SampleLine(c, s)] + rest, samples) ==
            ParseBody(c, rest, samples + [s.(series := WithoutEngine(s.series))])
  {
    SampleReadsBack(c, s);
    var lines := [SampleLine(c, s)] + rest;
    assert lines[0] == SampleLine(c, s) && lines[1..] == rest;
  }

  lemma CleanSamplesHead(xs: seq<Sample>, samples: seq<Sample>)
    requires xs != []
    ensures samples + [xs[0].(series := WithoutEngine(xs[0].series))] + CleanSamples(xs[1..]) == samples + CleanSamples(xs)
  {
    assert CleanSamples(xs) == [xs[0].(series := WithoutEngine(xs[0].series))] + CleanSamples(xs[1..]);
  }

  /** The body of a metric reads back up to the next comment line or the end. */
  lemma {:induction false} BodyReadsBack(c: Codec, xs: seq<Sample>, rest: seq<Text>, samples: seq<Sample>)
    requires NoneHashed(xs) && forall i | 0 <= i < |xs| :: SampleWell(c, xs[i])
    requires rest == [] || (rest[0] != [] && rest[0][0] == '#')
    ensures ParseBody(c, SampleLines(c, xs) + rest, samples) == Body(samples + CleanSamples(xs), rest)
    decreases |xs|
  {
    if xs == [] {
      assert SampleLines(c, xs) + rest == rest;
      assert samples + CleanSamples(xs) == samples;
    } else {
      assert SampleWell(c, xs[0]) && !Hashed(xs[0]);
      var after := SampleLines(c, xs[1..]) + rest;
      assert SampleLines(c, xs) + rest == [SampleLine(c, xs[0])] + after;
      SampleTakenOff(c, xs[0], after, samples);
      BodyReadsBack(c, xs[1..], rest, samples + [xs[0].(series := WithoutEngine(xs[0].series))]);
      CleanSamplesHead(xs, samples);
    }
  }

  lemma NextIsComment(c: Codec, ms: seq<Metric>)
    ensures var lines := MetricLines(c, ms); lines == [] || (lines[0] != [] && lines[0][0] == '#')
  {
  }

  /** A help line, a type line and a body make a metric. */
  lemma HeadedBody(c: Codec, m: Metric, body: seq<Text>, samples: seq<Sample>, rest: seq<Text>, metrics: seq<Metric>)
    requires WellFormed(c, m) && ParseBody(c, body, []) == Body(samples, rest)
    ensures ParseLines(c, [HelpLine(m), TypeLine(m)] + body, metrics) == ParseLines(c, rest, metrics + [m.(samples := samples)])
  {
    var lines := [HelpLine(m), TypeLine(m)] + body;
    HelpReadsBack(c, m);
    TypeReadsBack(c, m);
    assert lines[0] == HelpLine(m) && lines[1] == TypeLine(m) && lines[2..] == body;
  }

  /** Parsing takes one metric off the lines. */
  lemma MetricReadsBack(c: Codec, m: Metric, rest: seq<Text>, metrics: seq<Metric>)
    requires WellFormed(c, m) && NoneHashed(m.samples)
    requires rest == [] || (rest[0] != [] && rest[0][0] == '#')
    ensures ParseLines(c, [HelpLine(m), TypeLine(m)] + (SampleLines(c, m.samples) + rest), metrics) ==
            ParseLines(c, rest, metrics + [m.(samples := CleanSamples(m.samples))])
  {
    BodyReadsBack(c, m.samples, rest, []);
    NothingBefore(CleanSamples(m.samples));
    HeadedBody(c, m, SampleLines(c, m.samples) + rest, CleanSamples(m.samples), rest, metrics);
  }

  lemma {:induction false} SampleLinesSplit(c: Codec, xs: seq<Sample>, j: nat)
    requires j <= |xs|
    ensures SampleLines(c, xs) == SampleLines(c, xs[..j]) + SampleLines(c, xs[j..])
    decreases j
  {
    if j == 0 {
      assert xs[..0] == [] && xs[0..] == xs;
      assert [] + SampleLines(c, xs) == SampleLines(c, xs);
    } else {
      assert xs[..j][1..] == xs[1..][..j - 1] && xs[1..][j - 1..] == xs[j..];
      SampleLinesSplit(c, xs[1..], j - 1);
      Associates([SampleLine(c, xs[0])], SampleLines(c, xs[..j][1..]), SampleLines(c, xs[j..]));
    }
  }

  /** A sample line is too short for a help line. */
  lemma HashedIsRejected(c: Codec, s: Sample, rest: seq<Text>, metrics: seq<Metric>)
    requires SampleWell(c, s)
    ensures ParseLines(c, [SampleLine(c, s)] + rest, metrics) == Rejected
  {
    WordsConcat(s.series, c.show(s.value));
    OneWord(s.series);
    OneWord(c.show(s.value));
    assert ([SampleLine(c, s)] + rest)[0] == SampleLine(c, s);
  }

  /** The body ends at a label that starts like a comment, and the text is rejected there. */
  lemma HashedMetricIsRejected(c: Codec, m: Metric, j: nat, rest: seq<Text>, metrics: seq<Metric>)
    requires WellFormed(c, m) && j < |m.samples| && Hashed(m.samples[j]) && NoneHashed(m.samples[..j])
    ensures ParseLines(c, [HelpLine(m), TypeLine(m)] + (SampleLines(c, m.samples) + rest), metrics) == Rejected
  {
    var xs := m.samples;
    var left := SampleLines(c, xs[j..]) + rest;
    assert SampleWell(c, xs[j]);
    SampleReadsBack(c, xs[j]);
    assert left == [SampleLine(c, xs[j])] + (SampleLines(c, xs[j..][1..]) + rest);
    SampleLinesSplit(c, xs, j);
    Associates(SampleLines(c, xs[..j]), SampleLines(c, xs[j..]), rest);
    BodyReadsBack(c, xs[..j], left, []);
    HeadedBody(c, m, SampleLines(c, xs) + rest, [] + CleanSamples(xs[..j]), left, metrics);
    HashedIsRejected(c, xs[j], SampleLines(c, xs[j..][1..]) + rest, metrics + [m.(samples := [] + CleanSamples(xs[..j]))]);
  }

  lemma {:induction false} FirstHashed(xs: seq<Sample>) returns (j: nat)
    requires !NoneHashed(xs)
    ensures j < |xs| && Hashed(xs[j]) && NoneHashed(xs[..j])
    decreases |xs|
  {
    var n := |xs| - 1;
    if NoneHashed(xs[..n]) {
      j := n;
    } else {
      j := FirstHashed(xs[..n]);
      assert xs[..n][..j] == xs[..j];
    }
  }

  lemma NothingBefore(xs: seq<Sample>)
    ensures [] + xs == xs
  {
  }

  lemma Associates(a: seq<Text>, b: seq<Text>, d: seq<Text>)
    ensures a + b + d == a + (b + d)
  {
  }

  lemma {:induction false} LinesReadBack(c: Codec, ms: seq<Metric>, metrics: seq<Metric>)
    requires forall i | 0 <= i < |ms| :: WellFormed(c, ms[i])
    ensures ParseLines(c, MetricLines(c, ms), metrics) == if NoHashes(ms) then Parsed(metrics + Clean(ms)) else Rejected
    decreases |ms|
  {
    if ms == [] {
      assert metrics + Clean(ms) == metrics;
    } else if !NoneHashed(ms[0].samples) {
      var j := FirstHashed(ms[0].samples);
      HashedMetricIsRejected(c, ms[0], j, MetricLines(c, ms[1..]), metrics);
      Associates([HelpLine(ms[0]), TypeLine(ms[0])], SampleLines(c, ms[0].samples), MetricLines(c, ms[1..]));
    } else {
      assert NoHashes(ms) <==> NoHashes(ms[1..]);
      var first := ms[0].(samples := CleanSamples(ms[0].samples));
      FirstReadsBack(c, ms, metrics);
      LinesReadBack(c, ms[1..], metrics + [first]);
      CleanHead(ms);
      assert metrics + [first] + Clean(ms[1..]) == metrics + Clean(ms);
    }
  }

  lemma FirstReadsBack(c: Codec, ms: seq<Metric>, metrics: seq<Metric>)
    requires ms != [] && WellFormed(c, ms[0]) && NoneHashed(ms[0].samples)
    ensures ParseLines(c, MetricLines(c, ms), metrics) ==
            ParseLines(c, MetricLines(c, ms[1..]), metrics + [ms[0].(samples := CleanSamples(ms[0].samples))])
  {
    NextIsComment(c, ms[1..]);
    MetricReadsBack(c, ms[0], MetricLines(c, ms[1..]), metrics);
    Associates([HelpLine(ms[0]), TypeLine(ms[0])], SampleLines(c, ms[0].samples), MetricLines(c, ms[1..]));
  }

  lemma CleanHead(ms: seq<Metric>)
    requires ms != []
    ensures Clean(ms) == [ms[0].(samples := CleanSamples(ms[0].samples))] + Clean(ms[1..])
  {
  }

  predicate AllOneLine(lines: seq<Text>) {
    forall k | 0 <= k < |lines| :: Free(lines[k], '\n')
  }

  lemma OneLineConcat(a: seq<Text>, b: seq<Text>)
    requires AllOneLine(a) && AllOneLine(b)
    ensures AllOneLine(a + b)
  {
    forall k | 0 <= k < |a + b| ensures Free((a + b)[k], '\n') {
      if k >= |a| { assert (a + b)[k] == b[k - |a|]; }
    }
  }

  lemma LastOfConcat(a: seq<Text>, b: seq<Text>)
    requires b != [] || a != []
    ensures (a + b)[|a + b| - 1] == if b != [] then b[|b| - 1] else a[|a| - 1]
  {
  }

  /** The lines of one metric. */
  lemma MetricIsPrintable(c: Codec, m: Metric)
    requires WellFormed(c, m)
    ensures var lines := [HelpLine(m), TypeLine(m)] + SampleLines(c, m.samples);
            AllOneLine(lines) && Ends(lines[|lines| - 1])
  {
    HelpReadsBack(c, m);
    TypeReadsBack(c, m);
    SamplesArePrintable(c, m.samples);
    OneLineConcat([HelpLine(m), TypeLine(m)], SampleLines(c, m.samples));
    LastOfConcat([HelpLine(m), TypeLine(m)], SampleLines(c, m.samples));
  }

  /** No line contains a newline, and the text starts and ends with something solid. */
  lemma {:induction false} LinesArePrintable(c: Codec, ms: seq<Metric>)
    requires forall i | 0 <= i < |ms| :: WellFormed(c, ms[i])
    ensures AllOneLine(MetricLines(c, ms))
    ensures ms != [] ==> var lines := MetricLines(c, ms); lines != [] && lines[0] != [] && lines[0][0] == '#' && Ends(lines[|lines| - 1])
    decreases |ms|
  {
    if ms != [] {
      var here := [HelpLine(ms[0]), TypeLine(ms[0])] + SampleLines(c, ms[0].samples);
      var rest := MetricLines(c, ms[1..]);
      MetricIsPrintable(c, ms[0]);
      LinesArePrintable(c, ms[1..]);
      OneLineConcat(here, rest);
      LastOfConcat(here, rest);
      NextIsComment(c, ms);
    }
  }

  predicate Ends(line: Text) {
    line != [] && !Space(line[|line| - 1])
  }

  lemma {:induction false} SamplesArePrintable(c: Codec, xs: seq<Sample>)
    requires forall i | 0 <= i < |xs| :: SampleWell(c, xs[i])
    ensures forall k | 0 <= k < |SampleLines(c, xs)| :: Free(SampleLines(c, xs)[k], '\n') && Ends(SampleLines(c, xs)[k])
    decreases |xs|
  {
    if xs != [] {
      SampleReadsBack(c, xs[0]);
      SamplesArePrintable(c, xs[1..]);
    }
  }

  lemma {:induction false} JoinEnds(lines: seq<Text>)
    requires lines != [] && lines[0] != [] && Ends(lines[|lines| - 1])
    ensures var text := Glue(lines, '\n'); text != [] && text[0] == lines[0][0] && Ends(text)
    decreases |lines|
  {
    if |lines| > 1 { JoinTail(lines[1..]); }
  }

  lemma {:induction false} JoinTail(lines: seq<Text>)
    requires lines != [] && Ends(lines[|lines| - 1])
    ensures Ends(Glue(lines, '\n'))
    decreases |lines|
  {
    if |lines| > 1 { JoinTail(lines[1..]); }
  }

  predicate NoEngines(ms: seq<Metric>) {
    forall i, j | 0 <= i < |ms| && 0 <= j < |ms[i].samples| :: !HasEngine(ms[i].samples[j].series)
  }

  lemma PrintedIsParsed(c: Codec, ms: seq<Metric>)
    requires ms != [] && forall i | 0 <= i < |ms| :: WellFormed(c, ms[i])
    ensures ParseText(c, Serialize(c, ms)) == ParseLines(c, MetricLines(c, ms), [])
  {
    var lines := MetricLines(c, ms);
    LinesArePrintable(c, ms);
    JoinEnds(lines);
    SplitOfJoin(lines, '\n');
  }

  /**
   Printing and parsing: a non-empty list of well-formed metrics comes back with the engine sub-labels
   removed if no label starts with "#", and is rejected otherwise. So it comes back unchanged exactly if no
   label starts with "#" or has the sub-label.
   */
  lemma PrintThenParse(c: Codec, ms: seq<Metric>)
    requires ms != [] && forall i | 0 <= i < |ms| :: WellFormed(c, ms[i])
    ensures ParseText(c, Serialize(c, ms)) == if NoHashes(ms) then Parsed(Clean(ms)) else Rejected
    ensures ParseText(c, Serialize(c, ms)) == Parsed(ms) <==> NoHashes(ms) && NoEngines(ms)
  {
    PrintedIsParsed(c, ms);
    LinesReadBack(c, ms, []);
    assert [] + Clean(ms) == Clean(ms);
    CleanIsIdentity(ms);
  }

  lemma CleanIsIdentity(ms: seq<Metric>)
    ensures Clean(ms) == ms <==> NoEngines(ms)
  {
    if Clean(ms) == ms {
      forall i, j | 0 <= i < |ms| && 0 <= j < |ms[i].samples| ensures !HasEngine(ms[i].samples[j].series) {
        assert Clean(ms)[i].samples[j].series == WithoutEngine(ms[i].samples[j].series);
        WithoutEngineShrinks(ms[i].samples[j].series);
      }
    }
    if NoEngines(ms) {
      forall i | 0 <= i < |ms| ensures CleanSamples(ms[i].samples) == ms[i].samples {
        forall j | 0 <= j < |ms[i].samples| ensures CleanSamples(ms[i].samples)[j] == ms[i].samples[j] {
          WithoutEngineShrinks(ms[i].samples[j].series);
        }
      }
    }
  }
}
