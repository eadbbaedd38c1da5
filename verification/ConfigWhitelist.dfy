/**
 Which paths of a configuration changed, and whether they may. The source reports rendered paths such as
 "a.b[0].c" and splits them again; here they are compared with paths of tokens.
 */
module ConfigWhitelist {
  import opened Prelude
  import opened Texts
  import Ids = RequestIds

  /** A scalar; booleans are numbers when compared. */
  datatype Value = Bool(b: bool) | Number(r: real) | Str(s: string)

  datatype Json = Null | Scalar(v: Value) | List(items: seq<Json>) | Dict(entries: map<string, Json>)

  datatype Token = Key(key: string) | Index(i: nat)

  type Path = seq<Token>

  predicate Same(a: Value, b: Value) {
    if a.Str? || b.Str? then a == b else Numeric(a) == Numeric(b)
  }

  function Numeric(a: Value): real
    requires !a.Str?
  {
    match a
    case Bool(b) => if b then 1.0 else 0.0
    case Number(r) => r
  }

  // ---------------------------------------------------------------------------------------------
  // The report
  // ---------------------------------------------------------------------------------------------

  function Extend(path: string, key: string): string {
    if path == [] then key else path + ['.'] + key
  }

  function At(path: string, i: nat): string {
    path + (['['] + Ids.Decimal(i) + [']'])
  }

  /** The report when one of the two values is null or missing, whichever it is. */
  function OneSided(j: Json, path: string): set<string> {
    match j
    case Null => {}
    case Scalar(_) => {path}
    case Dict(d) => set k, p | k in d && p in OneSided(d[k], Extend(path, k)) :: p
    case List(xs) => set i, p | 0 <= i < |xs| && p in OneSided(xs[i], At(path, i)) :: p
  }

  function Changed(a: Json, b: Json, path: string): set<string> {
    if a == Null then OneSided(b, path)
    else if b == Null then OneSided(a, path)
    else if a.Dict? && b.Dict? then
      (set k, p | k in a.entries && k in b.entries && p in Changed(a.entries[k], b.entries[k], Extend(path, k)) :: p)
      + (set k, p | k in a.entries && k !in b.entries && p in OneSided(a.entries[k], Extend(path, k)) :: p)
      + (set k, p | k in b.entries && k !in a.entries && p in OneSided(b.entries[k], Extend(path, k)) :: p)
    else if a.List? && b.List? then
      if |a.items| != |b.items| then {path}
      else set i, p | 0 <= i < |a.items| && p in Changed(a.items[i], b.items[i], At(path, i)) :: p
    else if a.Scalar? && b.Scalar? && Same(a.v, b.v) then {}
    else {path}
  }

  // ---------------------------------------------------------------------------------------------
  // What the report means
  // ---------------------------------------------------------------------------------------------

  /** The value below one token; what is missing is null. */
  function Child(j: Json, t: Token): Json {
    match t
    case Key(k) => if j.Dict? && k in j.entries then j.entries[k] else Null
    case Index(i) => if j.List? && i < |j.items| then j.items[i] else Null
  }

  function Get(j: Json, p: Path): Json
    decreases |p|
  {
    if p == [] then j else Get(Child(j, p[0]), p[1..])
  }

  /** Two values that cannot be compared further down and are not equal. */
  predicate Clash(a: Json, b: Json) {
    if a == Null || b == Null then a.Scalar? || b.Scalar?
    else if a.Dict? && b.Dict? then false
    else if a.List? && b.List? then |a.items| != |b.items|
    else !(a.Scalar? && b.Scalar? && Same(a.v, b.v))
  }

  /** The values clash at this path and at none above it. */
  predicate FirstClash(a: Json, b: Json, p: Path)
    decreases |p|
  {
    if p == [] then Clash(a, b)
    else !Clash(a, b) && FirstClash(Child(a, p[0]), Child(b, p[0]), p[1..])
  }

  function Render(path: string, p: Path): string
    decreases |p|
  {
    if p == [] then path else Render(RenderToken(path, p[0]), p[1..])
  }

  function RenderToken(path: string, t: Token): string {
    match t
    case Key(k) => Extend(path, k)
    case Index(i) => At(path, i)
  }

  lemma {:induction false} NullsAgree(p: Path)
    ensures !FirstClash(Null, Null, p)
    decreases |p|
  {
    if p != [] { NullsAgree(p[1..]); }
  }

  lemma ClashIsSymmetric(a: Json, b: Json)
    ensures Clash(a, b) == Clash(b, a)
  {
  }

  lemma {:induction false} FirstClashIsSymmetric(a: Json, b: Json, p: Path)
    ensures FirstClash(a, b, p) == FirstClash(b, a, p)
    decreases |p|
  {
    ClashIsSymmetric(a, b);
    if p != [] { FirstClashIsSymmetric(Child(a, p[0]), Child(b, p[0]), p[1..]); }
  }

  lemma {:induction false} OneSidedHas(j: Json, path: string, p: Path)
    requires FirstClash(j, Null, p)
    ensures Render(path, p) in OneSided(j, path)
    decreases |p|
  {
    if p != [] {
      var c := Child(j, p[0]);
      if c == Null { NullsAgree(p[1..]); }
      OneSidedHas(c, RenderToken(path, p[0]), p[1..]);
    }
  }

  lemma {:induction false} OneSidedFrom(j: Json, path: string, s: string) returns (p: Path)
    requires s in OneSided(j, path)
    ensures FirstClash(j, Null, p) && Render(path, p) == s
  {
    match j
    case Scalar(_) => p := [];
    case Dict(d) =>
      var k, q :| k in d && q in OneSided(d[k], Extend(path, k)) && q == s;
      var rest := OneSidedFrom(d[k], Extend(path, k), s);
      p := [Key(k)] + rest;
      assert p[1..] == rest;
    case List(xs) =>
      var i, q :| 0 <= i < |xs| && q in OneSided(xs[i], At(path, i)) && q == s;
      var rest := OneSidedFrom(xs[i], At(path, i), s);
      p := [Index(i)] + rest;
      assert p[1..] == rest;
  }

  lemma {:induction false} ChangedHas(a: Json, b: Json, path: string, p: Path)
    requires FirstClash(a, b, p)
    ensures Render(path, p) in Changed(a, b, path)
    decreases |p|
  {
    if b == Null {
      OneSidedHas(a, path, p);
    } else if a == Null {
      FirstClashIsSymmetric(a, b, p);
      OneSidedHas(b, path, p);
    } else if p != [] {
      var next := RenderToken(path, p[0]);
      var ca, cb := Child(a, p[0]), Child(b, p[0]);
      ChangedHas(ca, cb, next, p[1..]);
      if ca == Null && cb == Null { NullsAgree(p[1..]); }
    }
  }

  lemma {:induction false} ChangedFrom(a: Json, b: Json, path: string, s: string) returns (p: Path)
    requires s in Changed(a, b, path)
    ensures FirstClash(a, b, p) && Render(path, p) == s
  {
    if a == Null {
      p := OneSidedFrom(b, path, s);
      FirstClashIsSymmetric(a, b, p);
    } else if b == Null {
      p := OneSidedFrom(a, path, s);
    } else if a.Dict? && b.Dict? {
      var k, rest;
      if both :| both in a.entries && both in b.entries && s in Changed(a.entries[both], b.entries[both], Extend(path, both)) {
        k := both;
        rest := ChangedFrom(a.entries[k], b.entries[k], Extend(path, k), s);
      } else if left :| left in a.entries && left !in b.entries && s in OneSided(a.entries[left], Extend(path, left)) {
        k := left;
        rest := OneSidedFrom(a.entries[k], Extend(path, k), s);
      } else {
        k :| k in b.entries && k !in a.entries && s in OneSided(b.entries[k], Extend(path, k));
        rest := OneSidedFrom(b.entries[k], Extend(path, k), s);
        FirstClashIsSymmetric(b.entries[k], Null, rest);
      }
      p := [Key(k)] + rest;
      assert p[1..] == rest;
    } else if a.List? && b.List? && |a.items| == |b.items| {
      var i :| 0 <= i < |a.items| && s in Changed(a.items[i], b.items[i], At(path, i));
      var rest := ChangedFrom(a.items[i], b.items[i], At(path, i), s);
      p := [Index(i)] + rest;
      assert p[1..] == rest;
    } else {
      p := [];
    }
  }

  /** The report is exactly the rendered paths of the first clashes. */
  lemma ReportIsExact(a: Json, b: Json, s: string)
    ensures s in Changed(a, b, "") <==> exists p :: FirstClash(a, b, p) && Render("", p) == s
  {
    if s in Changed(a, b, "") {
      var p := ChangedFrom(a, b, "", s);
    }
    if p :| FirstClash(a, b, p) && Render("", p) == s {
      ChangedHas(a, b, "", p);
    }
  }

  /** The report does not depend on which tree is which. */
  lemma ReportIsSymmetric(a: Json, b: Json)
    ensures Changed(a, b, "") == Changed(b, a, "")
  {
    forall s ensures s in Changed(a, b, "") <==> s in Changed(b, a, "") {
      if s in Changed(a, b, "") {
        var p := ChangedFrom(a, b, "", s);
        FirstClashIsSymmetric(a, b, p);
        ChangedHas(b, a, "", p);
      }
      if s in Changed(b, a, "") {
        var p := ChangedFrom(b, a, "", s);
        FirstClashIsSymmetric(b, a, p);
        ChangedHas(a, b, "", p);
      }
    }
  }

  /** The scalar at a path, or nothing for null, a missing value or a container. */
  function ScalarAt(j: Json, p: Path): Option<Value> {
    var v := Get(j, p);
    if v.Scalar? then Some(v.v) else None
  }

  predicate Differs(a: Json, b: Json, p: Path) {
    var x, y := ScalarAt(a, p), ScalarAt(b, p);
    (x.Some? || y.Some?) && !(x.Some? && y.Some? && Same(x.value, y.value))
  }

  /** Every path at which the trees hold different scalars lies at or below a first clash. */
  lemma {:induction false} DifferenceIsCovered(a: Json, b: Json, p: Path) returns (n: nat)
    requires Differs(a, b, p)
    ensures n <= |p| && FirstClash(a, b, p[..n])
    decreases |p|
  {
    if Clash(a, b) {
      n := 0;
    } else {
      n := DifferenceIsCovered(Child(a, p[0]), Child(b, p[0]), p[1..]);
      assert p[..n + 1][1..] == p[1..][..n];
      n := n + 1;
    }
  }

  // ---------------------------------------------------------------------------------------------
  // The whitelist
  // ---------------------------------------------------------------------------------------------

  datatype Node = Branch(children: map<string, Node>) | Leaves(names: seq<string>)

  const WHITELIST: Node := Branch(map[
    "motor_deploy_config" := Branch(map[
      "tls_config" := Branch(map[
        "north_tls_config" := Leaves(["enable_tls", "ca_file", "cert_file", "key_file", "passwd_file", "crl_file"])])]),
    "north_config" := Leaves(["name", "ip", "port"]),
    "motor_controller_config" := Branch(map[
      "logging_config" := Leaves(["log_level"]),
      "observability_config" := Leaves(["observability_enable", "metrics_ttl"])]),
    "motor_coordinator_config" := Branch(map[
      "logging_config" := Leaves(["log_level"]),
      "exception_config" := Leaves(["max_retry", "retry_delay", "first_token_timeout", "infer_timeout"]),
      "timeout_config" := Leaves(["request_timeout", "connection_timeout", "read_timeout", "write_timeout", "keep_alive_timeout"])]),
    "motor_nodemanger_config" := Branch(map[
      "logging_config" := Leaves(["log_level"])])])

  /** The text in front of the first bracket. */
  function Normalized(token: string): string {
    Split(token, '[')[0]
  }

  /** The keys lead through branches to a list and end with one of its names. */
  predicate IsLeaf(node: Node, keys: seq<string>) {
    keys != [] &&
    match node
    case Branch(children) => keys[0] in children && IsLeaf(children[keys[0]], keys[1..])
    case Leaves(names) => |keys| == 1 && keys[0] in names
  }

  function NormalizedAll(tokens: seq<string>): (keys: seq<string>)
    ensures |keys| == |tokens|
  {
    seq(|tokens|, i requires 0 <= i < |tokens| => Normalized(tokens[i]))
  }

  method PathIsWhitelisted(root: Node, path: string) returns (ok: bool)
    ensures ok <==> IsLeaf(root, NormalizedAll(Split(path, '.')))
  {
    var node := root;
    var tokens := Split(path, '.');
    var keys := NormalizedAll(tokens);
    assert keys[0..] == keys;
    for index := 0 to |tokens|
      invariant IsLeaf(root, keys) == IsLeaf(node, keys[index..])
    {
      var token := Normalized(tokens[index]);
      assert keys[index..][0] == token && keys[index..][1..] == keys[index + 1..];
      match node
      case Branch(children) =>
        if token !in children {
          return false;
        }
        node := children[token];
      case Leaves(names) =>
        return index == |tokens| - 1 && token in names;
    }
    ok := false;
  }

  /** The keys of a path without its indices. */
  function Keys(p: Path): seq<string> {
    if p == [] then []
    else (match p[0] case Key(k) => [k] case Index(_) => []) + Keys(p[1..])
  }

  predicate CleanKey(k: string) {
    Free(k, '.') && Free(k, '[')
  }

  predicate CleanPath(p: Path) {
    forall i | 0 <= i < |p| :: p[i].Key? ==> CleanKey(p[i].key)
  }

  lemma {:induction false} DecimalIsFree(n: nat, separator: char)
    requires separator < '0' || separator > '9'
    ensures Free(Ids.Decimal(n), separator)
  {
    if n >= 10 { DecimalIsFree(n / 10, separator); }
  }

  lemma CleanIsNormal(k: string)
    requires Free(k, '[')
    ensures Normalized(k) == k
  {
    SplitOfOne(k, '[');
  }

  /** An index does not change the normalized tokens of the path it is appended to. */
  lemma IndexIsDropped(path: string, i: nat)
    ensures NormalizedAll(Split(At(path, i), '.')) == NormalizedAll(Split(path, '.'))
  {
    var mark := ['['] + Ids.Decimal(i) + [']'];
    DecimalIsFree(i, '.');
    SplitOfSuffix(path, mark, '.');
    var tokens := Split(path, '.');
    var n := |tokens| - 1;
    var last := tokens[n];
    assert last + mark == last + ['['] + (Ids.Decimal(i) + [']']);
    SplitOfConcat(last, Ids.Decimal(i) + [']'], '[');
    assert Normalized(last + mark) == Normalized(last);
  }

  lemma KeyIsAppended(path: string, k: string)
    requires path != [] && CleanKey(k)
    ensures NormalizedAll(Split(Extend(path, k), '.')) == NormalizedAll(Split(path, '.')) + [k]
  {
    SplitOfConcat(path, k, '.');
    SplitOfOne(k, '.');
    CleanIsNormal(k);
  }

  lemma TokenIsAppended(path: string, t: Token)
    requires path != [] && (t.Key? ==> CleanKey(t.key))
    ensures NormalizedAll(Split(RenderToken(path, t), '.')) == NormalizedAll(Split(path, '.')) + Keys([t])
    ensures RenderToken(path, t) != []
  {
    assert [t][1..] == [];
    match t
    case Key(k) => KeyIsAppended(path, k);
    case Index(i) => IndexIsDropped(path, i);
  }

  lemma {:induction false} RenderedKeys(path: string, p: Path)
    requires path != [] && CleanPath(p)
    ensures NormalizedAll(Split(Render(path, p), '.')) == NormalizedAll(Split(path, '.')) + Keys(p)
    decreases |p|
  {
    if p != [] {
      TokenIsAppended(path, p[0]);
      RenderedKeys(RenderToken(path, p[0]), p[1..]);
      KeysOfHead(p, NormalizedAll(Split(path, '.')));
    }
  }

  lemma KeysOfHead(p: Path, before: seq<string>)
    requires p != []
    ensures before + Keys([p[0]]) + Keys(p[1..]) == before + Keys(p)
  {
    assert [p[0]][1..] == [];
    assert Keys([p[0]]) + [] == Keys([p[0]]);
  }

  /** The first key is empty and another key follows at once: the rendered path does not show it. */
  predicate Lost(p: Path) {
    |p| > 1 && p[0] == Key("") && p[1].Key?
  }

  /** The path that is left when lost keys are dropped. */
  function Seen(p: Path): Path
    decreases |p|
  {
    if Lost(p) then Seen(p[1..]) else p
  }

  lemma {:induction false} SeenIsRendered(p: Path)
    ensures Render("", Seen(p)) == Render("", p) && !Lost(Seen(p))
    ensures |Seen(p)| <= |p| && Seen(p) == p[|p| - |Seen(p)|..]
    ensures |Keys(Seen(p))| <= |Keys(p)| && (Lost(p) ==> |Keys(Seen(p))| < |Keys(p)|)
    ensures p != [] && p[0].Key? ==> Seen(p) != [] && Seen(p)[0].Key?
    decreases |p|
  {
    if Lost(p) {
      SeenIsRendered(p[1..]);
      assert Extend("", "") == "";
      assert p[1..][|p[1..]| - |Seen(p)|..] == p[|p| - |Seen(p)|..];
      KeysOfHead(p, []);
      assert [p[0]][1..] == [];
      assert Keys([p[0]]) == [""];
    }
  }

  /** Splitting a path that loses nothing gives its keys back; one that does not start with a key starts with "". */
  lemma SplitUndoesRender(p: Path)
    requires CleanPath(p) && !Lost(p)
    ensures NormalizedAll(Split(Render("", p), '.')) == if p != [] && p[0].Key? then Keys(p) else [""] + Keys(p)
  {
    if p == [] {
      CleanIsNormal("");
    } else {
      match p[0]
      case Key(k) =>
        SplitOfOne(k, '.');
        CleanIsNormal(k);
        if k != [] {
          RenderedKeys(k, p[1..]);
        } else if |p| > 1 {
          EmptyThenIndex(p);
        } else {
          assert p[1..] == [] && Render("", p) == "";
        }
      case Index(i) =>
        CleanIsNormal("");
        IndexIsDropped("", i);
        RenderedKeys(At("", i), p[1..]);
    }
  }

  lemma EmptyThenIndex(p: Path)
    requires CleanPath(p) && |p| > 1 && p[0] == Key("") && p[1].Index?
    ensures NormalizedAll(Split(Render("", p), '.')) == Keys(p)
  {
    var i := p[1].i;
    assert Extend("", "") == "" && Render("", p) == Render("", p[1..]);
    EmptyThenIndexKeys(p);
    EmptyToken();
    IndexIsDropped("", i);
    RenderedKeys(At("", i), p[1..][1..]);
  }

  lemma EmptyToken()
    ensures NormalizedAll(Split("", '.')) == [""]
  {
    SplitOfOne("", '.');
    CleanIsNormal("");
  }

  lemma EmptyThenIndexKeys(p: Path)
    requires |p| > 1 && p[0] == Key("") && p[1].Index?
    ensures Keys(p) == [""] + Keys(p[1..][1..])
  {
    assert Keys(p[1..]) == [] + Keys(p[1..][1..]);
  }

  /** A rendered path that starts with a key gives its keys back if and only if no key is lost. */
  lemma KeysComeBackIff(p: Path)
    requires CleanPath(p) && p != [] && p[0].Key?
    ensures NormalizedAll(Split(Render("", p), '.')) == Keys(Seen(p))
    ensures NormalizedAll(Split(Render("", p), '.')) == Keys(p) <==> !Lost(p)
  {
    SeenIsRendered(p);
    SplitUndoesRender(Seen(p));
  }

  // ---------------------------------------------------------------------------------------------
  // The validator
  // ---------------------------------------------------------------------------------------------

  ghost predicate Accepts(user: Json, baseline: Json) {
    forall s :: s in Changed(user, baseline, "") ==> IsLeaf(WHITELIST, NormalizedAll(Split(s, '.')))
  }

  method ValidateUpdateConfigWhitelist(user: Json, baseline: Json) returns (illegal: set<string>)
    ensures forall s :: s in illegal <==> s in Changed(user, baseline, "") && !IsLeaf(WHITELIST, NormalizedAll(Split(s, '.')))
    ensures illegal == {} <==> Accepts(user, baseline)
  {
    var paths := Changed(user, baseline, "");
    illegal := {};
    ghost var done: set<string> := {};
    while paths != {}
      invariant done + paths == Changed(user, baseline, "") && done !! paths
      invariant forall s :: s in illegal <==> s in done && !IsLeaf(WHITELIST, NormalizedAll(Split(s, '.')))
      decreases paths
    {
      var s :| s in paths;
      var ok := PathIsWhitelisted(WHITELIST, s);
      if !ok {
        illegal := illegal + {s};
      }
      paths := paths - {s};
      done := done + {s};
    }
    if illegal == {} {
      assert Accepts(user, baseline);
    } else {
      var s :| s in illegal;
      assert !Accepts(user, baseline);
    }
  }

  predicate CleanTree(j: Json) {
    match j
    case Null => true
    case Scalar(_) => true
    case Dict(d) => forall k :: k in d ==> CleanKey(k) && CleanTree(d[k])
    case List(xs) => forall i | 0 <= i < |xs| :: CleanTree(xs[i])
  }

  lemma {:induction false} ClashesAreClean(a: Json, b: Json, p: Path)
    requires CleanTree(a) && CleanTree(b) && FirstClash(a, b, p)
    ensures CleanPath(p)
    decreases |p|
  {
    if p != [] {
      if Child(a, p[0]) == Null && Child(b, p[0]) == Null { NullsAgree(p[1..]); }
      ClashesAreClean(Child(a, p[0]), Child(b, p[0]), p[1..]);
    }
  }

  /** The path starts with a key and its keys name a leaf of the whitelist. */
  predicate Allowed(p: Path) {
    p != [] && p[0].Key? && IsLeaf(WHITELIST, Keys(p))
  }

  lemma NoEmptyLeaf(rest: seq<string>)
    ensures !IsLeaf(WHITELIST, [""] + rest)
  {
  }

  /** What the validator sees of a path, and when it lets it pass. */
  lemma PathPassesIff(p: Path)
    requires CleanPath(p)
    ensures IsLeaf(WHITELIST, NormalizedAll(Split(Render("", p), '.'))) <==> Allowed(Seen(p))
  {
    SeenIsRendered(p);
    SplitUndoesRender(Seen(p));
    NoEmptyLeaf(Keys(Seen(p)));
  }

  /** A path with a lost key is not allowed. */
  lemma LostIsNotAllowed(p: Path)
    requires Lost(p)
    ensures !Allowed(p)
  {
    NoEmptyLeaf(Keys(p[1..]));
  }

  ghost predicate AllSeenAllowed(user: Json, baseline: Json) {
    forall p :: FirstClash(user, baseline, p) ==> Allowed(Seen(p))
  }

  /**
   For trees whose keys are free of "." and "[": the validator accepts exactly if every first clash, seen
   without lost keys, is at a whitelisted leaf.
   */
  lemma AcceptanceIsExact(user: Json, baseline: Json)
    requires CleanTree(user) && CleanTree(baseline)
    ensures Accepts(user, baseline) <==> AllSeenAllowed(user, baseline)
  {
    if Accepts(user, baseline) {
      forall p | FirstClash(user, baseline, p) ensures Allowed(Seen(p)) {
        ChangedHas(user, baseline, "", p);
        ClashesAreClean(user, baseline, p);
        PathPassesIff(p);
      }
    }
    if AllSeenAllowed(user, baseline) {
      forall s | s in Changed(user, baseline, "") ensures IsLeaf(WHITELIST, NormalizedAll(Split(s, '.'))) {
        var p := ChangedFrom(user, baseline, "", s);
        ClashesAreClean(user, baseline, p);
        PathPassesIff(p);
      }
    }
  }

  ghost predicate AllAllowed(user: Json, baseline: Json) {
    forall p :: FirstClash(user, baseline, p) ==> Allowed(p)
  }

  ghost predicate NoneLost(user: Json, baseline: Json) {
    forall p :: FirstClash(user, baseline, p) ==> !Lost(p)
  }

  /**
   What the whitelist promises, that accepted trees clash at whitelisted leaves only, holds if and only if
   no clash lies below an empty first key directly followed by another key.
   */
  lemma AcceptedClashesAreAllowedIff(user: Json, baseline: Json)
    requires CleanTree(user) && CleanTree(baseline) && Accepts(user, baseline)
    ensures AllAllowed(user, baseline) <==> NoneLost(user, baseline)
  {
    AcceptanceIsExact(user, baseline);
    if AllAllowed(user, baseline) {
      forall p | FirstClash(user, baseline, p) ensures !Lost(p) {
        if Lost(p) { LostIsNotAllowed(p); }
      }
    }
    if NoneLost(user, baseline) {
      forall p | FirstClash(user, baseline, p) ensures Allowed(p) {
        assert !Lost(p) && Seen(p) == p && Allowed(Seen(p));
      }
    }
  }

  /** No tree without an empty key at its top loses one. */
  lemma NoEmptyTopLosesNothing(user: Json, baseline: Json)
    requires !(user.Dict? && "" in user.entries) && !(baseline.Dict? && "" in baseline.entries)
    ensures NoneLost(user, baseline)
  {
    forall p | FirstClash(user, baseline, p) ensures !Lost(p) {
      if Lost(p) { NullsAgree(p[1..]); }
    }
  }

  /** Every difference of accepted trees lies at or below a clash that the validator took for an allowed one. */
  lemma AcceptedDifferencesAreAllowed(user: Json, baseline: Json, p: Path) returns (n: nat)
    requires CleanTree(user) && CleanTree(baseline) && Accepts(user, baseline)
    requires Differs(user, baseline, p)
    ensures n <= |p| && FirstClash(user, baseline, p[..n]) && Allowed(Seen(p[..n]))
    ensures !Lost(p[..n]) ==> Allowed(p[..n])
  {
    n := DifferenceIsCovered(user, baseline, p);
    AcceptanceIsExact(user, baseline);
  }

  // ---------------------------------------------------------------------------------------------
  // A change that passes below an empty key
  // ---------------------------------------------------------------------------------------------

  function Hidden(v: Value): Json {
    Dict(map["" := Dict(map["north_config" := Dict(map["name" := Scalar(v)])])])
  }

  const HIDDEN: Path := [Key(""), Key("north_config"), Key("name")]

  lemma OnlyChild(k: string, c: Json, p: Path)
    requires FirstClash(Dict(map[k := c]), Null, p)
    ensures p != [] && p[0] == Key(k) && FirstClash(c, Null, p[1..])
  {
    if p != [] && p[0] != Key(k) { NullsAgree(p[1..]); }
  }

  lemma HiddenClash(v: Value, p: Path)
    ensures FirstClash(Hidden(v), Null, p) <==> p == HIDDEN
  {
    var name := Dict(map["name" := Scalar(v)]);
    var north := Dict(map["north_config" := name]);
    if FirstClash(Hidden(v), Null, p) {
      OnlyChild("", north, p);
      OnlyChild("north_config", name, p[1..]);
      OnlyChild("name", Scalar(v), p[1..][1..]);
      assert p[1..][1..][1..] == [];
      assert p == [p[0]] + [p[1..][0]] + [p[1..][1..][0]];
    }
    assert HIDDEN[1..] == [Key("north_config"), Key("name")];
    assert HIDDEN[1..][1..] == [Key("name")] && HIDDEN[1..][1..][1..] == [];
    assert FirstClash(Scalar(v), Null, []);
    assert FirstClash(name, Null, [Key("name")]);
    assert FirstClash(north, Null, [Key("north_config"), Key("name")]);
  }

  lemma HiddenIsClean(v: Value)
    ensures CleanTree(Hidden(v))
  {
    assert CleanTree(Dict(map["name" := Scalar(v)]));
    assert CleanTree(Dict(map["north_config" := Dict(map["name" := Scalar(v)])]));
  }

  lemma HiddenIsNotAllowed()
    ensures Lost(HIDDEN) && !Allowed(HIDDEN)
  {
    LostIsNotAllowed(HIDDEN);
  }

  lemma HiddenSeenAllowed(v: Value)
    ensures AllSeenAllowed(Hidden(v), Null)
  {
    HiddenIsSeen();
    forall p | FirstClash(Hidden(v), Null, p) ensures Allowed(Seen(p)) {
      HiddenClash(v, p);
    }
  }

  /** The validator accepts it, for every value, although its only clash is not at a whitelisted leaf. */
  lemma EmptyKeyPasses(v: Value)
    ensures CleanTree(Hidden(v)) && Accepts(Hidden(v), Null)
    ensures FirstClash(Hidden(v), Null, HIDDEN) && Lost(HIDDEN) && !Allowed(HIDDEN)
  {
    HiddenIsClean(v);
    HiddenSeenAllowed(v);
    AcceptanceIsExact(Hidden(v), Null);
    HiddenClash(v, HIDDEN);
    HiddenIsNotAllowed();
  }

  lemma HiddenIsSeen()
    ensures Allowed(Seen(HIDDEN))
  {
    var seen := [Key("north_config"), Key("name")];
    assert HIDDEN[1..] == seen && Seen(HIDDEN) == seen;
    assert seen[1..] == [Key("name")] && [Key("name")][1..] == [];
    assert Keys([Key("name")]) == ["name"] + [] == ["name"];
    assert Keys(seen) == ["north_config"] + ["name"] == ["north_config", "name"];
    assert ["north_config", "name"][1..] == ["name"];
  }

  // ---------------------------------------------------------------------------------------------
  // What may be updated
  // ---------------------------------------------------------------------------------------------

  /** The updatable settings, by their keys. */
  predicate Updatable(keys: seq<string>) {
    || (|keys| == 4 && keys[..3] == ["motor_deploy_config", "tls_config", "north_tls_config"] &&
        keys[3] in ["enable_tls", "ca_file", "cert_file", "key_file", "passwd_file", "crl_file"])
    || (|keys| == 2 && keys[0] == "north_config" && keys[1] in ["name", "ip", "port"])
    || (|keys| == 3 && keys[1..] == ["logging_config", "log_level"] &&
        keys[0] in ["motor_controller_config", "motor_coordinator_config", "motor_nodemanger_config"])
    || (|keys| == 3 && keys[..2] == ["motor_controller_config", "observability_config"] &&
        keys[2] in ["observability_enable", "metrics_ttl"])
    || (|keys| == 3 && keys[..2] == ["motor_coordinator_config", "exception_config"] &&
        keys[2] in ["max_retry", "retry_delay", "first_token_timeout", "infer_timeout"])
    || (|keys| == 3 && keys[..2] == ["motor_coordinator_config", "timeout_config"] &&
        keys[2] in ["request_timeout", "connection_timeout", "read_timeout", "write_timeout", "keep_alive_timeout"])
  }

  lemma LeafOfLeaves(names: seq<string>, keys: seq<string>)
    ensures IsLeaf(Leaves(names), keys) <==> |keys| == 1 && keys[0] in names
  {
  }

  lemma LeafOfBranch(children: map<string, Node>, keys: seq<string>)
    ensures IsLeaf(Branch(children), keys) <==> keys != [] && keys[0] in children && IsLeaf(children[keys[0]], keys[1..])
  {
  }

  lemma LeafOfTwo(children: map<string, Node>, keys: seq<string>)
    requires forall k | k in children :: children[k].Leaves?
    ensures IsLeaf(Branch(children), keys) <==> |keys| == 2 && keys[0] in children && keys[1] in children[keys[0]].names
  {
    LeafOfBranch(children, keys);
    if keys != [] && keys[0] in children { LeafOfLeaves(children[keys[0]].names, keys[1..]); }
  }

  /** The whitelist allows these settings and no others. */
  lemma UpdatableIff(keys: seq<string>)
    ensures IsLeaf(WHITELIST, keys) <==> Updatable(keys)
  {
    LeafOfBranch(WHITELIST.children, keys);
    if keys != [] && keys[0] in WHITELIST.children {
      var node, rest := WHITELIST.children[keys[0]], keys[1..];
      if keys[0] == "motor_deploy_config" {
        DeployIff(keys);
      } else if keys[0] == "north_config" {
        LeafOfLeaves(node.names, rest);
      } else {
        LeafOfTwo(node.children, rest);
        if |keys| == 3 { assert keys == [keys[0], keys[1], keys[2]]; }
      }
    }
  }

  lemma DeployIff(keys: seq<string>)
    requires keys != [] && keys[0] == "motor_deploy_config"
    ensures IsLeaf(WHITELIST, keys) <==> Updatable(keys)
  {
    var node := WHITELIST.children["motor_deploy_config"];
    LeafOfBranch(WHITELIST.children, keys);
    LeafOfBranch(node.children, keys[1..]);
    if |keys| > 1 && keys[1] == "tls_config" {
      LeafOfTwo(node.children["tls_config"].children, keys[1..][1..]);
    }
    if |keys| == 4 { assert keys[..3] == [keys[0], keys[1], keys[2]]; }
  }

  /** Numbers and booleans are equal by value, true as one and false as zero; text only to the same text. */
  lemma SameMeans(b: bool, r: real, q: real, s: string, v: Value)
    ensures Same(Bool(b), Number(r)) <==> (b && r == 1.0) || (!b && r == 0.0)
    ensures Same(Number(r), Number(q)) <==> r == q
    ensures Same(Str(s), v) <==> v == Str(s)
    ensures Same(v, v)
  {
  }
}
