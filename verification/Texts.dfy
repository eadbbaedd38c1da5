/** Splitting text at a separator, and joining. */
module Texts {

  type Text = seq<char>

  function Glue(parts: seq<Text>, separator: char): Text {
    if parts == [] then []
    else if |parts| == 1 then parts[0]
    else parts[0] + [separator] + Glue(parts[1..], separator)
  }

  /** Splitting at every separator; there is always at least one part. */
  function Split(s: Text, separator: char): (parts: seq<Text>)
    ensures parts != []
  {
    if s == [] then [[]]
    else
      var rest := Split(s[1..], separator);
      if s[0] == separator then [[]] + rest else [[s[0]] + rest[0]] + rest[1..]
  }

  predicate Free(s: Text, separator: char) {
    forall i | 0 <= i < |s| :: s[i] != separator
  }

  lemma {:induction false} SplitOfOne(s: Text, separator: char)
    requires Free(s, separator)
    ensures Split(s, separator) == [s]
  {
    if s != [] {
      SplitOfOne(s[1..], separator);
      assert [s[0]] + s[1..] == s;
    }
  }

  /** A separator splits, whatever stands before and after it. */
  lemma {:induction false} SplitOfConcat(s: Text, t: Text, separator: char)
    ensures Split(s + [separator] + t, separator) == Split(s, separator) + Split(t, separator)
    decreases |s|
  {
    var all := s + [separator] + t;
    if s == [] {
      assert all[1..] == t;
    } else {
      assert all[1..] == s[1..] + [separator] + t;
      SplitOfConcat(s[1..], t, separator);
    }
  }

  function WithLast(parts: seq<Text>, t: Text): seq<Text>
    requires parts != []
  {
    parts[..|parts| - 1] + [parts[|parts| - 1] + t]
  }

  lemma WithLastAfterSeparator(rest: seq<Text>, t: Text)
    requires rest != []
    ensures [[]] + WithLast(rest, t) == WithLast([[]] + rest, t)
  {
  }

  lemma WithLastAfterChar(c: char, rest: seq<Text>, t: Text)
    requires rest != []
    ensures var longer := WithLast(rest, t);
            [[c] + longer[0]] + longer[1..] == WithLast([[c] + rest[0]] + rest[1..], t)
  {
    if |rest| == 1 {
      assert [c] + (rest[0] + t) == [c] + rest[0] + t;
    }
  }

  /** Text without the separator lengthens the last part. */
  lemma {:induction false} SplitOfSuffix(s: Text, t: Text, separator: char)
    requires Free(t, separator)
    ensures Split(s + t, separator) == WithLast(Split(s, separator), t)
    decreases |s|
  {
    if s == [] {
      assert s + t == t;
      SplitOfOne(t, separator);
      assert [] + t == t;
    } else {
      assert (s + t)[1..] == s[1..] + t;
      SplitOfSuffix(s[1..], t, separator);
      if s[0] == separator {
        WithLastAfterSeparator(Split(s[1..], separator), t);
      } else {
        WithLastAfterChar(s[0], Split(s[1..], separator), t);
      }
    }
  }

  /** Splitting undoes joining for parts without the separator. */
  lemma {:induction false} SplitOfJoin(parts: seq<Text>, separator: char)
    requires parts != [] && forall i | 0 <= i < |parts| :: Free(parts[i], separator)
    ensures Split(Glue(parts, separator), separator) == parts
    decreases |parts|
  {
    if |parts| == 1 {
      SplitOfOne(parts[0], separator);
    } else {
      SplitOfJoin(parts[1..], separator);
      SplitOfConcat(parts[0], Glue(parts[1..], separator), separator);
      SplitOfOne(parts[0], separator);
      assert [parts[0]] + parts[1..] == parts;
    }
  }
}
